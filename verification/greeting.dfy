/**
 * The greeting cooldown table `last_greeted_time` (main.py, lines 193-200 and
 * 211-214): a map from a known name, or the unknown label, to the time it was
 * last greeted, where a missing key reads as time 0.
 */
module Greeting {

  import Config

  type Table = map<string, real>

  /** `last_greeted_time.get(key, 0)`. */
  function LastGreeted(t: Table, key: string): real {
    if key in t then t[key] else 0.0
  }

  /** The gate of every greeting: strictly more than the cooldown has passed. */
  predicate CooledDown(t: Table, key: string, now: real) {
    now - LastGreeted(t, key) > Config.GreetingCooldown
  }

  /** The table after the known-name loop, and the names that loop greeted, in order. */
  datatype KnownGreetings = KnownGreetings(table: Table, greeted: seq<string>)

  /** The loop over `current_knowns`: greet each name whose gate is open, and stamp it. */
  function GreetKnowns(t: Table, names: seq<string>, now: real): (r: KnownGreetings)
    ensures forall n :: n in r.greeted ==> n in names
    ensures t.Keys <= r.table.Keys
    decreases |names|
  {
    if names == [] then KnownGreetings(t, [])
    else if CooledDown(t, names[0], now) then
      var rest := GreetKnowns(t[names[0] := now], names[1..], now);
      KnownGreetings(rest.table, [names[0]] + rest.greeted)
    else
      GreetKnowns(t, names[1..], now)
  }

  /**
   * Within one frame a name is greeted exactly once if it is present and its
   * gate was open when the frame began, and not at all otherwise (a repeated
   * name finds its own fresh stamp); its stamp becomes `now` exactly then.
   */
  lemma {:induction false} GreetKnownsOnce(t: Table, names: seq<string>, now: real, key: string)
    ensures multiset(GreetKnowns(t, names, now).greeted)[key] ==
            if key in names && CooledDown(t, key, now) then 1 else 0
    ensures LastGreeted(GreetKnowns(t, names, now).table, key) ==
            if key in names && CooledDown(t, key, now) then now else LastGreeted(t, key)
    decreases |names|
  {
    if names != [] {
      var n := names[0];
      assert key in names <==> key == n || key in names[1..];
      if CooledDown(t, n, now) {
        GreetKnownsOnce(t[n := now], names[1..], now, key);
        if key == n {
          assert !CooledDown(t[n := now], key, now);
        } else {
          assert LastGreeted(t[n := now], key) == LastGreeted(t, key);
        }
      } else {
        GreetKnownsOnce(t, names[1..], now, key);
      }
    }
  }

  /** The table after the unknown-face greeting gate, and whether the greeting is spoken. */
  datatype UnknownGreeting = UnknownGreeting(table: Table, spoken: bool)

  /**
   * The unknown greeting: when the unknown label's gate is open its stamp is
   * set to `now`, but the greeting is only spoken when no known face is present.
   */
  function GreetUnknown(t: Table, knownsPresent: bool, now: real): (r: UnknownGreeting)
    ensures r.spoken <==> CooledDown(t, Config.UnknownName, now) && !knownsPresent
    ensures LastGreeted(r.table, Config.UnknownName) ==
            if CooledDown(t, Config.UnknownName, now) then now else LastGreeted(t, Config.UnknownName)
    ensures forall k :: k != Config.UnknownName ==> LastGreeted(r.table, k) == LastGreeted(t, k)
    ensures t.Keys <= r.table.Keys
  {
    if CooledDown(t, Config.UnknownName, now) then
      UnknownGreeting(t[Config.UnknownName := now], !knownsPresent)
    else
      UnknownGreeting(t, false)
  }

  /** The greetings of one frame: the cooldown table after it, the known names greeted, and whether the unknown greeting is spoken. */
  datatype FrameGreetings = FrameGreetings(table: Table, greeted: seq<string>, unknownSpoken: bool)

  /**
   * The known-name loop, followed, when an enrollment candidate is present,
   * by the unknown greeting gate on the table that loop left.
   */
  function GreetFrame(t: Table, knowns: seq<string>, candidate: bool, now: real): (r: FrameGreetings)
    ensures r.greeted == GreetKnowns(t, knowns, now).greeted
    ensures t.Keys <= r.table.Keys
  {
    var g := GreetKnowns(t, knowns, now);
    if candidate then
      var u := GreetUnknown(g.table, knowns != [], now);
      FrameGreetings(u.table, g.greeted, u.spoken)
    else
      FrameGreetings(g.table, g.greeted, false)
  }

  /**
   * A frame's effect on one key: its stamp stays or becomes `now`, and only
   * after more than the cooldown; a greeting of the key, known or unknown,
   * happens only through an open gate and leaves the stamp at `now`.
   */
  lemma {:induction false} GreetFrameStamps(t: Table, knowns: seq<string>, candidate: bool, now: real, key: string)
    ensures var r := GreetFrame(t, knowns, candidate, now);
      var before := LastGreeted(t, key);
      var after := LastGreeted(r.table, key);
      && (after == before || (after == now && now - before > Config.GreetingCooldown))
      && (key in r.greeted ==> after == now && CooledDown(t, key, now))
      && (key == Config.UnknownName && r.unknownSpoken ==> after == now && CooledDown(t, key, now))
  {
    var g := GreetKnowns(t, knowns, now);
    GreetKnownsOnce(t, knowns, now, key);
    assert key in g.greeted ==> multiset(g.greeted)[key] > 0;
  }

  /**
   * The unknown greeting is spoken exactly when a candidate is present, no
   * known face is, and the unknown key has cooled down; with known faces
   * present it is suppressed but its stamp is still renewed.
   */
  lemma {:induction false} GreetFrameUnknown(t: Table, knowns: seq<string>, candidate: bool, now: real)
    ensures var r := GreetFrame(t, knowns, candidate, now);
      && (r.unknownSpoken <==> candidate && knowns == [] && CooledDown(t, Config.UnknownName, now))
      && (candidate && knowns != [] && CooledDown(t, Config.UnknownName, now) ==>
            !r.unknownSpoken && LastGreeted(r.table, Config.UnknownName) == now)
  {
    GreetKnownsOnce(t, knowns, now, Config.UnknownName);
  }

}
