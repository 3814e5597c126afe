/**
 * Classification of the faces of a sampled frame (main.py, lines 163-185):
 * every detection is labelled with the name of the FIRST stored identity it
 * matches, or with the unknown label; unmatched faces are collected, and the
 * largest of them (the first one on ties) becomes the enrollment candidate.
 */
module Classifier {

  import opened Options
  import opened Faces
  import Config

  /** `compare_faces` for one stored identity: the embedding distance is within tolerance. */
  predicate Matches(distance: (Encoding, Encoding) -> real, known: Identity, enc: Encoding) {
    distance(known.encoding, enc) <= Config.MatchTolerance
  }

  /** The first index at or after `k` whose identity matches `enc`. */
  function FirstMatchFrom(store: seq<Identity>, enc: Encoding, distance: (Encoding, Encoding) -> real, k: nat): (r: Option<nat>)
    requires k <= |store|
    ensures r.Some? ==> k <= r.value < |store| && Matches(distance, store[r.value], enc)
    ensures r.Some? ==> forall j :: k <= j < r.value ==> !Matches(distance, store[j], enc)
    ensures r.None? ==> forall j :: k <= j < |store| ==> !Matches(distance, store[j], enc)
    decreases |store| - k
  {
    if k == |store| then None
    else if Matches(distance, store[k], enc) then Some(k)
    else FirstMatchFrom(store, enc, distance, k + 1)
  }

  /**
   * `matches.index(True)`: the lowest store index that matches, or None when
   * no stored identity matches (in particular when the store is empty).
   */
  function FirstMatch(store: seq<Identity>, enc: Encoding, distance: (Encoding, Encoding) -> real): (r: Option<nat>)
    ensures r.Some? ==> r.value < |store| && Matches(distance, store[r.value], enc)
    ensures r.Some? ==> forall j :: 0 <= j < r.value ==> !Matches(distance, store[j], enc)
    ensures r.None? <==> forall j :: 0 <= j < |store| ==> !Matches(distance, store[j], enc)
  {
    FirstMatchFrom(store, enc, distance, 0)
  }

  /** The label a detection with embedding `enc` receives: the name of the first identity it matches, else the unknown label. */
  function Label(store: seq<Identity>, enc: Encoding, distance: (Encoding, Encoding) -> real): (r: string)
    ensures (forall j :: 0 <= j < |store| ==> !Matches(distance, store[j], enc)) ==> r == Config.UnknownName
    ensures (exists j :: 0 <= j < |store| && Matches(distance, store[j], enc)) ==>
      exists j :: 0 <= j < |store| && Matches(distance, store[j], enc) && r == store[j].name &&
        forall i :: 0 <= i < j ==> !Matches(distance, store[i], enc)
  {
    match FirstMatch(store, enc, distance)
    case Some(j) => store[j].name
    case None => Config.UnknownName
  }

  /**
   * The three lists the loop builds: one label per detection
   * (`current_face_names`), the names of the matched detections
   * (`current_knowns`) and the locations of the unmatched ones
   * (`temp_unknown_locs`).
   */
  datatype Classification = Classification(names: seq<string>, knowns: seq<string>, unmatched: seq<Box>)

  function Classify(store: seq<Identity>, dets: seq<Detection>, distance: (Encoding, Encoding) -> real): (r: Classification)
    ensures |r.names| == |dets|
    ensures |r.knowns| + |r.unmatched| == |dets|
    decreases |dets|
  {
    if dets == [] then Classification([], [], [])
    else
      var rest := Classify(store, dets[1..], distance);
      match FirstMatch(store, dets[0].encoding, distance)
      case Some(j) =>
        Classification([store[j].name] + rest.names, [store[j].name] + rest.knowns, rest.unmatched)
      case None =>
        Classification([Config.UnknownName] + rest.names, rest.knowns, [dets[0].box] + rest.unmatched)
  }

  /** Which detections match some stored identity. */
  function MatchFlags(store: seq<Identity>, dets: seq<Detection>, distance: (Encoding, Encoding) -> real): (r: seq<bool>)
    ensures |r| == |dets|
  {
    seq(|dets|, i requires 0 <= i < |dets| => FirstMatch(store, dets[i].encoding, distance).Some?)
  }

  /** Pointwise negation of a list of flags. */
  function Not(flags: seq<bool>): (r: seq<bool>)
    ensures |r| == |flags|
    ensures forall i :: 0 <= i < |flags| ==> r[i] == !flags[i]
  {
    seq(|flags|, i requires 0 <= i < |flags| => !flags[i])
  }

  /** The elements of `xs` whose flag is set, in their original order. */
  function Select<T>(xs: seq<T>, keep: seq<bool>): (r: seq<T>)
    requires |xs| == |keep|
    ensures |r| <= |xs|
    ensures forall x :: x in r ==> x in xs
  {
    if xs == [] then []
    else (if keep[0] then [xs[0]] else []) + Select(xs[1..], keep[1..])
  }

  /** Every element lands on exactly one side of a split by a flag list. */
  lemma {:induction false} SelectSplitsAll<T, U>(xs: seq<T>, ys: seq<U>, keep: seq<bool>)
    requires |xs| == |keep| == |ys|
    ensures |Select(xs, keep)| + |Select(ys, Not(keep))| == |keep|
    decreases |keep|
  {
    if keep != [] {
      assert Not(keep)[1..] == Not(keep[1..]);
      SelectSplitsAll(xs[1..], ys[1..], keep[1..]);
    }
  }

  /** Each detection is labelled with the name of its lowest-index matching identity, or as unknown. */
  lemma {:induction false} ClassifyLabels(store: seq<Identity>, dets: seq<Detection>, distance: (Encoding, Encoding) -> real)
    ensures forall i :: 0 <= i < |dets| ==>
      Classify(store, dets, distance).names[i] == Label(store, dets[i].encoding, distance)
    decreases |dets|
  {
    if dets != [] {
      ClassifyLabels(store, dets[1..], distance);
      var r := Classify(store, dets, distance);
      var rest := Classify(store, dets[1..], distance);
      assert r.names == [Label(store, dets[0].encoding, distance)] + rest.names;
      forall i | 0 <= i < |dets|
        ensures r.names[i] == Label(store, dets[i].encoding, distance)
      {
        if i > 0 {
          var k := i - 1;
          assert dets[i] == dets[1..][k];
          assert r.names[i] == rest.names[k];
        }
      }
    }
  }

  /**
   * The matched names are exactly the labels of the matching detections, in
   * detection order.
   */
  lemma {:induction false} ClassifyKnowns(store: seq<Identity>, dets: seq<Detection>, distance: (Encoding, Encoding) -> real)
    ensures var r := Classify(store, dets, distance);
      r.knowns == Select(r.names, MatchFlags(store, dets, distance))
    decreases |dets|
  {
    if dets != [] {
      var tail := dets[1..];
      ClassifyKnowns(store, tail, distance);
      var names := Classify(store, dets, distance).names;
      var flags := MatchFlags(store, dets, distance);
      assert flags[1..] == MatchFlags(store, tail, distance);
      assert names[1..] == Classify(store, tail, distance).names;
      assert flags[0] == FirstMatch(store, dets[0].encoding, distance).Some?;
      assert Select(names, flags) == (if flags[0] then [names[0]] else []) + Select(names[1..], flags[1..]);
    }
  }

  /**
   * The unmatched list is exactly the locations of the detections that match
   * no identity, in detection order.
   */
  lemma {:induction false} ClassifyUnmatched(store: seq<Identity>, dets: seq<Detection>, distance: (Encoding, Encoding) -> real)
    ensures Classify(store, dets, distance).unmatched == Select(Boxes(dets), Not(MatchFlags(store, dets, distance)))
    decreases |dets|
  {
    if dets != [] {
      var tail := dets[1..];
      ClassifyUnmatched(store, tail, distance);
      var boxes := Boxes(dets);
      var skip := Not(MatchFlags(store, dets, distance));
      assert skip[1..] == Not(MatchFlags(store, tail, distance));
      assert boxes[1..] == Boxes(tail);
      assert skip[0] == FirstMatch(store, dets[0].encoding, distance).None?;
      assert Select(boxes, skip) == (if skip[0] then [dets[0].box] else []) + Select(boxes[1..], skip[1..]);
    }
  }

  /**
   * Every detection lands in exactly one of the two lists: the matched names
   * select the flagged labels, the unmatched boxes select the others.
   */
  lemma {:induction false} ClassifyPartition(store: seq<Identity>, dets: seq<Detection>, distance: (Encoding, Encoding) -> real)
    ensures var r := Classify(store, dets, distance);
      var flags := MatchFlags(store, dets, distance);
      && r.knowns == Select(r.names, flags)
      && r.unmatched == Select(Boxes(dets), Not(flags))
      && |Select(r.names, flags)| + |Select(Boxes(dets), Not(flags))| == |dets|
  {
    ClassifyKnowns(store, dets, distance);
    ClassifyUnmatched(store, dets, distance);
    SelectSplitsAll(Classify(store, dets, distance).names, Boxes(dets), MatchFlags(store, dets, distance));
  }

  /** Python's `max(..., key=area)`: the index of the first box of largest area. */
  function ArgMaxArea(boxes: seq<Box>): (k: nat)
    requires |boxes| > 0
    ensures k < |boxes|
    ensures forall i :: 0 <= i < |boxes| ==> Area(boxes[i]) <= Area(boxes[k])
    ensures forall i :: 0 <= i < k ==> Area(boxes[i]) < Area(boxes[k])
    decreases |boxes|
  {
    if |boxes| == 1 then 0
    else
      var k := ArgMaxArea(boxes[..|boxes| - 1]);
      if Area(boxes[|boxes| - 1]) > Area(boxes[k]) then |boxes| - 1 else k
  }

  /**
   * The enrollment candidate: absent exactly when no face is unmatched,
   * otherwise the first unmatched box whose area no other unmatched box exceeds.
   */
  function SelectCandidate(unmatched: seq<Box>): (r: Option<Box>)
    ensures r.None? <==> unmatched == []
    ensures r.Some? ==> forall i :: 0 <= i < |unmatched| ==> Area(unmatched[i]) <= Area(r.value)
    ensures r.Some? ==> exists k :: 0 <= k < |unmatched| && unmatched[k] == r.value &&
                          forall i :: 0 <= i < k ==> Area(unmatched[i]) < Area(r.value)
  {
    if unmatched == [] then None
    else
      var k := ArgMaxArea(unmatched);
      Some(unmatched[k])
  }

}
