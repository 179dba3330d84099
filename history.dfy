/**
 * The AutoHistory coordinator of root/static/rapidapp/js/RapidApp/History.js.
 *
 * Navigation events are encoded as tokens `idx:id:old:new` and pushed onto
 * the browser history; every history change is decoded and turned into at
 * most one `setNavState` call on a component. The coordinator's whole state
 * is `navIdx` and `currentNav`; the browser history stack is modelled as the
 * append-only sequence `pushed`, and the `setNavState` calls it makes as the
 * log `navs`. `Ext.getCmp` is the set `components` of live component ids.
 *
 * The functions on `HistState` specify the coordinator's operations; the
 * class `AutoHistory` performs them by updating its fields in place.
 */
module History {
  import opened Strings

  // ---------------------------------------------------------------------------
  // index arithmetic
  // ---------------------------------------------------------------------------

  /** One wrap of the 0..99 counter: a single step up or down, not a modulo. */
  function WrapIdx(idx: int): (r: int)
    ensures -100 <= idx < 200 ==> 0 <= r < 100 && r % 100 == idx % 100
    ensures 0 <= idx < 100 ==> r == idx
  {
    if idx > 99 then idx - 100 else if idx < 0 then idx + 100 else idx
  }

  /** Direction inference: moving from `oldIdx` to `newIdx` is forward when
      the wrapped distance is below 50. */
  function IsForwardNav(oldIdx: int, newIdx: int): (r: bool)
    ensures 0 <= oldIdx < 100 && 0 <= newIdx < 100 ==> (r <==> (newIdx - oldIdx) % 100 < 50)
  {
    var diff := WrapIdx(newIdx - oldIdx);
    diff < 50
  }

  /** Outside [-100, 199] WrapIdx is not a modulo. */
  lemma WrapIdxIsSingleStep()
    ensures WrapIdx(250) == 150 && 250 % 100 == 50
    ensures WrapIdx(-150) == -50
  {
  }

  lemma DirectionExamples()
    ensures IsForwardNav(10, 11)
    ensures IsForwardNav(99, 0)
    ensures !IsForwardNav(10, 60)
    ensures WrapIdx(100) == 0 && WrapIdx(-1) == 99 && WrapIdx(50) == 50
  {
  }

  /** The next index of a recorded event is always forward of the current one,
      and the current one is backward of the next. */
  lemma StepIsForward(i: int)
    requires 0 <= i < 100
    ensures IsForwardNav(i, WrapIdx(i + 1))
    ensures !IsForwardNav(WrapIdx(i + 1), i)
  {
  }

  /** On two indices in range, exactly one direction is forward unless they
      are exactly 50 apart, where both read as backward: the tie-break is a
      heuristic. */
  lemma DirectionTieBreak(a: int, b: int)
    requires 0 <= a < 100 && 0 <= b < 100 && a != b
    ensures (b - a) % 100 != 50 ==> (IsForwardNav(a, b) <==> !IsForwardNav(b, a))
    ensures (b - a) % 100 == 50 ==> !IsForwardNav(a, b) && !IsForwardNav(b, a)
  {
  }

  // ---------------------------------------------------------------------------
  // tokens
  // ---------------------------------------------------------------------------

  /** The token `recordHistEvent` builds: the printed index, the id, the old
      and the new value, joined by ':'. Its first field is the printed index,
      whatever the other three hold. */
  function MakeToken(idx: nat, id: string, oldval: string, newval: string): (r: string)
    ensures r == Join([NatToString(idx), id, oldval, newval], ':')
    ensures Fields(r)[0] == NatToString(idx)
  {
    var n := NatToString(idx);
    var parts := [n, id, oldval, newval];
    assert parts[1..] == [id, oldval, newval] && parts[1..][1..] == [oldval, newval];
    assert parts[1..][1..][1..] == [newval];
    assert Join([oldval, newval], ':') == oldval + [':'] + newval;
    assert Join([id, oldval, newval], ':') == id + [':'] + (oldval + [':'] + newval);
    var rest := id + ":" + oldval + ":" + newval;
    assert n + ":" + id + ":" + oldval + ":" + newval == n + [':'] + rest;
    NoColonInNumber(idx);
    SplitAtSep(n, rest, ':');
    SplitNoSep(n, ':');
    n + ":" + id + ":" + oldval + ":" + newval
  }

  /** The guard token `installSafeguard` builds: the token of an event with
      an empty id and empty values. */
  function GuardToken(idx: nat): (r: string)
    ensures r == MakeToken(idx, "", "", "")
  {
    NatToString(idx) + ":::"
  }

  function Fields(token: string): seq<string> {
    Split(token, ':')
  }

  /** A token whose index field is a decimal number in 0..99: the index
      grammar of every token the coordinator builds. */
  predicate WellFormedToken(token: string) {
    var f := Fields(token)[0];
    |f| > 0 && AllDigits(f) && DecimalValue(f) < 100
  }

  /** `parseInt(token.split(':')[0])`: an index field of decimal digits reads
      as its value, an empty one as NaN. */
  function TokenIndex(token: string): (r: Option<nat>)
    ensures WellFormedToken(token) ==> r == Some(DecimalValue(Fields(token)[0])) && r.value < 100
    ensures Fields(token)[0] == "" ==> r == None
  {
    ParseInt(Fields(token)[0])
  }

  lemma NoColonInNumber(n: nat)
    ensures ':' !in NatToString(n)
  {
  }

  /** The index field of a token is the index it was built with, whatever the
      other fields hold; built with an index in range, the token is well formed. */
  lemma {:induction false} TokenIndexOfToken(idx: nat, id: string, oldval: string, newval: string)
    ensures TokenIndex(MakeToken(idx, id, oldval, newval)) == Some(idx)
    ensures idx < 100 ==> WellFormedToken(MakeToken(idx, id, oldval, newval))
  {
    ParseIntNatToString(idx);
    DecimalValueOfNatToString(idx);
  }

  /** Token round trip: splitting a recorded token on ':' gives back the index,
      the id, the old and the new value, provided none of them contains ':'. */
  lemma {:induction false} TokenRoundTrip(idx: nat, id: string, oldval: string, newval: string)
    requires ':' !in id && ':' !in oldval && ':' !in newval
    ensures Fields(MakeToken(idx, id, oldval, newval)) == [NatToString(idx), id, oldval, newval]
    ensures TokenIndex(MakeToken(idx, id, oldval, newval)) == Some(idx)
  {
    NoColonInNumber(idx);
    SplitJoin([NatToString(idx), id, oldval, newval], ':');
    ParseIntNatToString(idx);
  }

  /** The round trip fails for a value containing ':': the id 'a:b' comes
      back as 'a', and the fields shift. */
  lemma ColonBreaksRoundTrip()
    ensures Field(Fields(MakeToken(1, "a:b", "x", "y")), 1) == "a"
    ensures Field(Fields(MakeToken(1, "a:b", "x", "y")), 3) == "x"
  {
    var t := MakeToken(1, "a:b", "x", "y");
    assert NatToString(1) == "1";
    assert t == "1" + [':'] + ("a" + [':'] + ("b" + [':'] + ("x" + [':'] + "y")));
    SplitAtSep("1", "a" + [':'] + ("b" + [':'] + ("x" + [':'] + "y")), ':');
    SplitAtSep("a", "b" + [':'] + ("x" + [':'] + "y"), ':');
    SplitAtSep("b", "x" + [':'] + "y", ':');
    SplitAtSep("x", "y", ':');
    SplitNoSep("1", ':');
    SplitNoSep("a", ':');
    SplitNoSep("b", ':');
    SplitNoSep("x", ':');
    SplitNoSep("y", ':');
  }

  /** A guard token has an empty id and empty values. */
  lemma {:induction false} GuardFields(idx: nat)
    ensures Fields(GuardToken(idx)) == [NatToString(idx), "", "", ""]
    ensures TokenIndex(GuardToken(idx)) == Some(idx)
    ensures idx < 100 ==> WellFormedToken(GuardToken(idx))
  {
    TokenIndexOfToken(idx, "", "", "");
    TokenRoundTrip(idx, "", "", "");
  }

  // ---------------------------------------------------------------------------
  // the coordinator's state and operations
  // ---------------------------------------------------------------------------

  /** One `target.setNavState(state)` call on the component with this id. */
  datatype NavCall = NavCall(id: string, state: string)

  /** The coordinator's fields, the browser history stack and the log of
      navigation calls made so far. */
  datatype HistState = HistState(navIdx: int, currentNav: string, pushed: seq<string>, navs: seq<NavCall>)

  /** The cursor invariant: the index is in range, and a non-empty current
      token is well formed and carries that index. */
  predicate Consistent(s: HistState) {
    && 0 <= s.navIdx < 100
    && (s.currentNav != "" ==> WellFormedToken(s.currentNav) && TokenIndex(s.currentNav) == Some(s.navIdx))
  }

  const Initial := HistState(0, "", [], [])

  /** The calls `performNav(id, val)` makes: one `setNavState(val)` when the id
      and the value are non-empty and the component exists, none otherwise. */
  function NavEffect(id: string, val: string, components: set<string>): (r: seq<NavCall>)
    ensures |r| <= 1
    ensures r != [] <==> id != "" && val != "" && id in components
    ensures r != [] ==> r[0] == NavCall(id, val)
  {
    if id == "" || val == "" || id !in components then [] else [NavCall(id, val)]
  }

  function NavStep(s: HistState, id: string, val: string, components: set<string>): (r: HistState)
    ensures r.navIdx == s.navIdx && r.currentNav == s.currentNav && r.pushed == s.pushed
    ensures r.navs == s.navs + NavEffect(id, val, components)
  {
    s.(navs := s.navs + NavEffect(id, val, components))
  }

  /** `installSafeguard`: make the guard token current and push it; the index
      does not move. */
  function SafeguardStep(s: HistState): (r: HistState)
    requires 0 <= s.navIdx < 100
    ensures Consistent(r)
    ensures r.navIdx == s.navIdx && r.navs == s.navs
    ensures r.pushed == s.pushed + [r.currentNav]
    ensures Fields(r.currentNav) == [NatToString(s.navIdx), "", "", ""]
  {
    GuardFields(s.navIdx);
    var token := GuardToken(s.navIdx);
    s.(currentNav := token, pushed := s.pushed + [token])
  }

  /** `recordHistEvent(id, oldval, newval)`. */
  function RecordStep(s: HistState, id: string, oldval: string, newval: string): (r: HistState)
    requires Consistent(s)
    ensures Consistent(r)
    ensures newval == "" ==> r == s
    ensures newval != "" ==>
      && r.navIdx == (s.navIdx + 1) % 100
      && r.pushed == s.pushed + [r.currentNav]
      && r.navs == s.navs
      && r.currentNav != s.currentNav
  {
    if newval == "" then s
    else
      var idx := WrapIdx(s.navIdx + 1);
      var token := MakeToken(idx, id, oldval, newval);
      TokenIndexOfToken(idx, id, oldval, newval);
      s.(navIdx := idx, currentNav := token, pushed := s.pushed + [token])
  }

  /** The token a non-empty event records decodes to that event: the next
      index, the id, the old and the new value. */
  lemma {:induction false} RecordedTokenDecodes(s: HistState, id: string, oldval: string, newval: string)
    requires Consistent(s)
    requires newval != "" && ':' !in id && ':' !in oldval && ':' !in newval
    ensures var r := RecordStep(s, id, oldval, newval);
      Fields(r.currentNav) == [NatToString((s.navIdx + 1) % 100), id, oldval, newval]
  {
    TokenRoundTrip(WrapIdx(s.navIdx + 1), id, oldval, newval);
  }

  /** `handleHistChange(navTarget)`. */
  function HistChangeStep(s: HistState, navTarget: string, components: set<string>): (r: HistState)
    requires Consistent(s)
    requires navTarget == "" || WellFormedToken(navTarget)
    ensures Consistent(r)
    ensures navTarget == "" ==> r.navIdx == s.navIdx && r.pushed == s.pushed + [GuardToken(s.navIdx)]
    ensures navTarget == s.currentNav && navTarget != "" ==> r == s
    ensures navTarget != s.currentNav && navTarget != "" ==>
      && r.currentNav == navTarget
      && Some(r.navIdx) == TokenIndex(navTarget)
      && r.pushed == s.pushed
    ensures |s.navs| <= |r.navs| <= |s.navs| + 1 && r.navs[..|s.navs|] == s.navs
  {
    if navTarget == "" then
      var s1 :=
        if s.currentNav != "" then
          var parts := Fields(s.currentNav);
          NavStep(s, Field(parts, 1), Field(parts, 2), components)
        else s;
      SafeguardStep(s1)
    else if navTarget != s.currentNav then
      var parts := Fields(navTarget);
      var navTargetIdx := TokenIndex(navTarget).value;
      var s1 :=
        if IsForwardNav(s.navIdx, navTargetIdx) then
          NavStep(s, Field(parts, 1), Field(parts, 3), components)
        else
          var current := Fields(s.currentNav);
          NavStep(s, Field(current, 1), Field(current, 2), components);
      s1.(currentNav := navTarget, navIdx := navTargetIdx)
    else s
  }

  // ---------------------------------------------------------------------------
  // properties of the coordinator
  // ---------------------------------------------------------------------------

  /** Echo suppression: the change notification caused by recording an event
      carries the token just recorded, and handling it changes nothing and
      navigates nowhere. */
  lemma EchoIsIgnored(s: HistState, id: string, oldval: string, newval: string, components: set<string>)
    requires Consistent(s) && newval != ""
    ensures var r := RecordStep(s, id, oldval, newval);
      WellFormedToken(r.currentNav) && HistChangeStep(r, r.currentNav, components) == r
  {
  }

  /** Exhausted history: an empty token replays the current token's old state
      on its component, then re-installs the guard at the same index. */
  lemma EmptyTokenReplaysOldState(s: HistState, components: set<string>)
    requires Consistent(s)
    ensures var r := HistChangeStep(s, "", components);
      && r.navIdx == s.navIdx
      && r.currentNav == GuardToken(s.navIdx)
      && r.pushed == s.pushed + [GuardToken(s.navIdx)]
      && r.navs == s.navs +
           (if s.currentNav == "" then []
            else NavEffect(Field(Fields(s.currentNav), 1), Field(Fields(s.currentNav), 2), components))
  {
  }

  /** Replaying a guard token navigates nowhere: its id is empty. A second
      exhausted-history notification after the guard only re-pushes it. */
  lemma GuardReplayIsInert(s: HistState, components: set<string>)
    requires Consistent(s)
    ensures var g := SafeguardStep(s);
      var r := HistChangeStep(g, "", components);
      r.navs == s.navs && r.navIdx == s.navIdx && r.currentNav == g.currentNav
  {
  }

  /** Any token other than the current one causes exactly the navigation the
      direction calls for: forward replays the token's new state on the
      token's component, backward replays the current token's old state on the
      current token's component. */
  lemma OtherTokenNavigates(s: HistState, navTarget: string, components: set<string>)
    requires Consistent(s) && WellFormedToken(navTarget) && navTarget != "" && navTarget != s.currentNav
    ensures var r := HistChangeStep(s, navTarget, components);
      var t := Fields(navTarget);
      var c := Fields(s.currentNav);
      r.navs == s.navs +
        (if IsForwardNav(s.navIdx, TokenIndex(navTarget).value)
         then NavEffect(Field(t, 1), Field(t, 3), components)
         else NavEffect(Field(c, 1), Field(c, 2), components))
  {
  }

  /** Back then forward over one recorded event: going back to the previous
      token replays the event's old state on its component and restores the
      previous cursor; going forward again replays the event's new state and
      restores the cursor the event left. */
  lemma {:induction false} BackThenForward(s: HistState, id: string, oldval: string, newval: string, components: set<string>)
    requires Consistent(s) && s.currentNav != ""
    requires newval != "" && ':' !in id && ':' !in oldval && ':' !in newval
    ensures var r := RecordStep(s, id, oldval, newval);
      var back := HistChangeStep(r, s.currentNav, components);
      var fwd := HistChangeStep(back, r.currentNav, components);
      && back.navs == s.navs + NavEffect(id, oldval, components)
      && back.navIdx == s.navIdx && back.currentNav == s.currentNav
      && fwd.navs == back.navs + NavEffect(id, newval, components)
      && fwd.navIdx == r.navIdx && fwd.currentNav == r.currentNav
      && fwd.pushed == r.pushed
  {
    var r := RecordStep(s, id, oldval, newval);
    RecordedTokenDecodes(s, id, oldval, newval);
    StepIsForward(s.navIdx);
    assert r.navIdx == WrapIdx(s.navIdx + 1);
    assert !IsForwardNav(r.navIdx, s.navIdx);
    var back := HistChangeStep(r, s.currentNav, components);
    assert Field(Fields(r.currentNav), 1) == id && Field(Fields(r.currentNav), 2) == oldval;
    assert back.navs == s.navs + NavEffect(id, oldval, components);
    assert IsForwardNav(back.navIdx, r.navIdx);
    assert Field(Fields(r.currentNav), 3) == newval;
  }

  // ---------------------------------------------------------------------------
  // the coordinator object
  // ---------------------------------------------------------------------------

  /** `Ext.ux.RapidApp.AutoHistory`, with the browser history stack and the
      navigation calls it causes kept beside its two fields. */
  class AutoHistory {
    var navIdx: int
    var currentNav: string
    var pushed: seq<string>
    var navs: seq<NavCall>

    function State(): HistState
      reads this
    {
      HistState(navIdx, currentNav, pushed, navs)
    }

    ghost predicate Valid()
      reads this
    {
      Consistent(State())
    }

    constructor ()
      ensures Valid() && State() == Initial
    {
      navIdx, currentNav := 0, "";
      pushed, navs := [], [];
    }

    method InstallSafeguard()
      requires Valid()
      modifies this
      ensures Valid() && State() == SafeguardStep(old(State()))
    {
      GuardFields(navIdx);
      currentNav := NatToString(navIdx) + ":::";
      pushed := pushed + [currentNav];
    }

    method RecordHistEvent(id: string, oldval: string, newval: string)
      requires Valid()
      modifies this
      ensures Valid() && State() == RecordStep(old(State()), id, oldval, newval)
    {
      if newval == "" {
        return;
      }
      navIdx := WrapIdx(navIdx + 1);
      TokenIndexOfToken(navIdx, id, oldval, newval);
      currentNav := NatToString(navIdx) + ":" + id + ":" + oldval + ":" + newval;
      pushed := pushed + [currentNav];
    }

    method PerformNav(id: string, newVal: string, components: set<string>)
      modifies this`navs
      ensures State() == NavStep(old(State()), id, newVal, components)
    {
      if id == "" {
        return;
      }
      if newVal == "" {
        return;
      }
      if id !in components {
        return;
      }
      navs := navs + [NavCall(id, newVal)];
    }

    method HandleHistChange(navTarget: string, components: set<string>)
      requires Valid()
      requires navTarget == "" || WellFormedToken(navTarget)
      modifies this
      ensures Valid() && State() == HistChangeStep(old(State()), navTarget, components)
    {
      if navTarget == "" {
        if currentNav != "" {
          var parts := Split(currentNav, ':');
          PerformNav(Field(parts, 1), Field(parts, 2), components);
        }
        InstallSafeguard();
        return;
      }

      if navTarget != currentNav {
        var parts := Split(navTarget, ':');
        var navTargetIdx := ParseInt(parts[0]).value;
        if IsForwardNav(navIdx, navTargetIdx) {
          PerformNav(Field(parts, 1), Field(parts, 3), components);
        } else {
          var current := Split(currentNav, ':');
          PerformNav(Field(current, 1), Field(current, 2), components);
        }
        currentNav := navTarget;
        navIdx := navTargetIdx;
      }
    }
  }
}
