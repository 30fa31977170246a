/** The loop over the transaction-response entries that fills
    `binaryResource1` and `binaryResource2` from the entries' locations. */
module Slots {
  import opened Wrappers
  import opened Text
  import opened Location
  import opened LocationFacts
  import opened ScenarioContext


  lemma BinaryTypeIsPlain()
    ensures IsPlainName(BinaryType)
  {
  }

  /** Storing one reference: slot 1 while it is falsy, slot 2 otherwise. */
  function Place(c: Context, ref: string): (r: Context) {
    if Truthy(Read(c, BinaryResource1)) then c[BinaryResource2 := Some(ref)]
    else c[BinaryResource1 := Some(ref)]
  }

  /** One iteration: an entry whose location mentions `Binary` has its
      reference placed; any other entry is skipped. */
  function Visit(c: Context, loc: string): (r: Context)
  {
    if !Includes(loc, BinaryType) then c
    else
      BinaryTypeIsPlain();
      Place(c, ExtractReference(loc, BinaryType))
  }

  /** The whole loop, a left fold in entry order. */
  function AssignSlots(c: Context, locs: seq<string>): (r: Context)
    ensures forall f :: f != BinaryResource1 && f != BinaryResource2 ==>
              (f in r <==> f in c) && (f in c ==> r[f] == c[f])
    ensures c.Keys <= r.Keys
    decreases |locs|
  {
    if locs == [] then c else AssignSlots(Visit(c, locs[0]), locs[1..])
  }

  /** Reference definition: the references of the locations that mention
      `Binary`, in entry order. */
  function BinaryRefs(locs: seq<string>): (refs: seq<string>)
    ensures |refs| <= |locs|
  {
    if locs == [] then []
    else
      BinaryTypeIsPlain();
      (if Includes(locs[0], BinaryType) then [ExtractReference(locs[0], BinaryType)] else [])
      + BinaryRefs(locs[1..])
  }

  /** Every reference the loop can store is truthy. */
  lemma {:induction false} BinaryRefsTruthy(locs: seq<string>)
    ensures forall k :: 0 <= k < |BinaryRefs(locs)| ==> BinaryRefs(locs)[k] != ""
    decreases |locs|
  {
    if locs != [] {
      BinaryRefsTruthy(locs[1..]);
      BinaryTypeIsPlain();
      if Includes(locs[0], BinaryType) {
        ExtractNonEmpty(locs[0], BinaryType);
      }
    }
  }

  /** Placing the references one after the other. */
  function PlaceAll(c: Context, refs: seq<string>): (r: Context)
    decreases |refs|
  {
    if refs == [] then c else PlaceAll(Place(c, refs[0]), refs[1..])
  }

  /** The loop places exactly the references of the `Binary` entries. */
  lemma {:induction false} SlotsFollowRefs(c: Context, locs: seq<string>)
    ensures AssignSlots(c, locs) == PlaceAll(c, BinaryRefs(locs))
    decreases |locs|
  {
    if locs != [] {
      var c' := Visit(c, locs[0]);
      SlotsFollowRefs(c', locs[1..]);
      var rest := BinaryRefs(locs[1..]);
      BinaryTypeIsPlain();
      if Includes(locs[0], BinaryType) {
        var refs := [ExtractReference(locs[0], BinaryType)] + rest;
        assert BinaryRefs(locs) == refs;
        assert refs[0] == ExtractReference(locs[0], BinaryType) && refs[1..] == rest;
      } else {
        assert BinaryRefs(locs) == rest;
      }
    }
  }

  lemma UpdateOverwrite(c: Context, f: Field, a: Option<string>, b: Option<string>)
    ensures c[f := a][f := b] == c[f := b]
  {
  }

  lemma {:induction false} PlaceAfterFirst(c: Context, refs: seq<string>)
    requires Truthy(Read(c, BinaryResource1))
    ensures PlaceAll(c, refs) == if refs == [] then c else c[BinaryResource2 := Some(refs[|refs| - 1])]
    decreases |refs|
  {
    if refs != [] {
      var c' := c[BinaryResource2 := Some(refs[0])];
      assert Place(c, refs[0]) == c';
      PlaceAfterFirst(c', refs[1..]);
      if |refs| > 1 {
        UpdateOverwrite(c, BinaryResource2, Some(refs[0]), Some(refs[|refs| - 1]));
      }
    }
  }

  /** Once slot 1 holds a truthy reference, every later `Binary` entry
      overwrites slot 2, so slot 2 ends with the last one. */
  lemma AssignAfterFirst(c: Context, locs: seq<string>)
    requires Truthy(Read(c, BinaryResource1))
    ensures var refs := BinaryRefs(locs);
            AssignSlots(c, locs) ==
              if refs == [] then c else c[BinaryResource2 := Some(refs[|refs| - 1])]
  {
    SlotsFollowRefs(c, locs);
    PlaceAfterFirst(c, BinaryRefs(locs));
  }

  /** From a falsy slot 1: the first `Binary` entry lands in slot 1 and,
      with two or more, slot 2 holds the LAST one (not necessarily the second). */
  lemma AssignFromFalsy(c: Context, locs: seq<string>)
    requires !Truthy(Read(c, BinaryResource1))
    ensures var refs := BinaryRefs(locs);
            var r := AssignSlots(c, locs);
            && (|refs| == 0 ==> r == c)
            && (|refs| == 1 ==> r == c[BinaryResource1 := Some(refs[0])])
            && (|refs| >= 2 ==>
                  r == c[BinaryResource1 := Some(refs[0])][BinaryResource2 := Some(refs[|refs| - 1])])
  {
    var refs := BinaryRefs(locs);
    SlotsFollowRefs(c, locs);
    if refs != [] {
      BinaryRefsTruthy(locs);
      var c' := c[BinaryResource1 := Some(refs[0])];
      assert Place(c, refs[0]) == c';
      assert PlaceAll(c, refs) == PlaceAll(c', refs[1..]);
      PlaceAfterFirst(c', refs[1..]);
    }
  }

  /** The locations that mention `Binary`. */
  function BinaryLocations(locs: seq<string>): (r: seq<string>)
    ensures forall k :: 0 <= k < |r| ==> Includes(r[k], BinaryType)
  {
    if locs == [] then []
    else (if Includes(locs[0], BinaryType) then [locs[0]] else []) + BinaryLocations(locs[1..])
  }

  /** Entries whose location does not mention `Binary` leave both slots
      untouched: dropping them changes nothing. */
  lemma {:induction false} OtherEntriesIgnored(c: Context, locs: seq<string>)
    ensures AssignSlots(c, locs) == AssignSlots(c, BinaryLocations(locs))
    decreases |locs|
  {
    if locs != [] {
      var c' := Visit(c, locs[0]);
      OtherEntriesIgnored(c', locs[1..]);
      var rest := BinaryLocations(locs[1..]);
      if Includes(locs[0], BinaryType) {
        var bl := [locs[0]] + rest;
        assert BinaryLocations(locs) == bl;
        assert bl[0] == locs[0] && bl[1..] == rest;
        assert AssignSlots(c, bl) == AssignSlots(c', rest);
      } else {
        assert c' == c;
        assert BinaryLocations(locs) == rest;
      }
    }
  }

  /** Exactly two `Binary` entries at positions i < j: slot 1 from i, slot 2 from j. */
  lemma TwoBinaryEntries(c: Context, locs: seq<string>)
    requires !Truthy(Read(c, BinaryResource1))
    requires |BinaryRefs(locs)| == 2
    ensures Read(AssignSlots(c, locs), BinaryResource1) == Some(BinaryRefs(locs)[0])
    ensures Read(AssignSlots(c, locs), BinaryResource2) == Some(BinaryRefs(locs)[1])
  {
    AssignFromFalsy(c, locs);
  }
}
