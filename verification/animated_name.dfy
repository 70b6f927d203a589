/**
 * The hover name: while the cursor is over it, a timer steps through six
 * names every 1.2 s; when the cursor leaves, the first name is shown again.
 */
module AnimatedName {
  const Names: seq<string> := ["Rakshitha", "Baby bangara", "Kullamma", "Motamma", "SP", "SS"]

  /** `isHovered` and `currentNameIndex`. */
  datatype NameState = NameState(hovered: bool, index: nat)

  /** What can happen: the cursor enters or leaves, or the interval fires. */
  datatype Event = HoverStart | HoverEnd | Tick

  const Initial: NameState := NameState(false, 0)

  /**
   * The interval runs only while hovered and advances the index modulo the
   * number of names; leaving resets the index to 0 at once.
   */
  function Step(s: NameState, e: Event): (r: NameState)
    ensures r.hovered <==> (e == HoverStart || (e == Tick && s.hovered))
    ensures e == HoverEnd ==> r.index == 0
    ensures e == Tick && !s.hovered ==> r == s
  {
    match e
    case HoverStart => s.(hovered := true)
    case HoverEnd => NameState(false, 0)
    case Tick => if s.hovered then s.(index := (s.index + 1) % |Names|) else s
  }

  /** The index names a name, and away from the cursor it is the first. */
  predicate Inv(s: NameState) {
    s.index < |Names| && (!s.hovered ==> s.index == 0)
  }

  /**
   * The state after a sequence of events: from a state that keeps the
   * invariant it is kept, and a sequence that ends with the cursor leaving
   * ends in the initial state.
   */
  function Run(s: NameState, events: seq<Event>): (r: NameState)
    ensures Inv(s) ==> Inv(r)
    ensures events != [] && events[|events| - 1] == HoverEnd ==> r == Initial
    decreases |events|
  {
    if events == [] then s else Run(Step(s, events[0]), events[1..])
  }

  lemma StepKeepsInv(s: NameState, e: Event)
    requires Inv(s)
    ensures Inv(Step(s, e))
  {
  }

  /** From the first render on, whatever happens, the invariant holds. */
  lemma {:induction false} RunKeepsInv(s: NameState, events: seq<Event>)
    requires Inv(s)
    ensures Inv(Run(s, events))
    decreases |events|
  {
    if events != [] {
      StepKeepsInv(s, events[0]);
      RunKeepsInv(Step(s, events[0]), events[1..]);
    }
  }

  /** The name shown. */
  function Shown(s: NameState): (name: string)
    requires Inv(s)
    ensures !s.hovered ==> name == "Rakshitha"
  {
    Names[s.index]
  }

  /** `n` ticks while hovered: the sequence of `n` interval firings. */
  function Ticks(n: nat): (r: seq<Event>)
    ensures |r| == n
    ensures forall i :: 0 <= i < n ==> r[i] == Tick
  {
    if n == 0 then [] else [Tick] + Ticks(n - 1)
  }

  /** `n` ticks while hovered advance the index by `n`, modulo six. */
  lemma {:induction false} TicksAdvance(s: NameState, n: nat)
    requires Inv(s) && s.hovered
    ensures Run(s, Ticks(n)) == NameState(true, (s.index + n) % |Names|)
    decreases n
  {
    if n > 0 {
      var s1 := Step(s, Tick);
      assert s1 == NameState(true, (s.index + 1) % |Names|);
      assert Ticks(n)[1..] == Ticks(n - 1);
      TicksAdvance(s1, n - 1);
      AdvanceByOneMore(s.index, n - 1);
    }
  }

  /** One step, then m more, lands where m + 1 steps do. */
  lemma AdvanceByOneMore(i: nat, m: nat)
    ensures ((i + 1) % |Names| + m) % |Names| == (i + m + 1) % |Names|
  {
  }

  /** Six ticks, or any multiple of six, show every name and return to the start. */
  lemma SixTicksCycle(s: NameState, rounds: nat)
    requires Inv(s) && s.hovered
    ensures Run(s, Ticks(|Names| * rounds)) == s
  {
    TicksAdvance(s, |Names| * rounds);
    WholeRounds(s.index, rounds);
  }

  /** Whole rounds of the list bring an index back to itself. */
  lemma {:induction false} WholeRounds(i: nat, rounds: nat)
    requires i < |Names|
    ensures (i + |Names| * rounds) % |Names| == i
  {
    if rounds > 0 {
      WholeRounds(i, rounds - 1);
      assert i + |Names| * rounds == (i + |Names| * (rounds - 1)) + |Names|;
    }
  }

  /** Leaving shows the first name again, whatever was shown. */
  lemma HoverEndResets(s: NameState)
    ensures Step(s, HoverEnd) == Initial
    ensures Shown(Step(s, HoverEnd)) == Names[0]
  {
  }
}
