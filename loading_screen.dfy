/**
  The start-up loading screen: a percentage counter advanced by a periodic
  timer. Each timer tick adds 2, picks one of five phase labels by
  progress / 20, and at 100 stops the timer and schedules the completion
  callback. The 50 ms period and the 500 ms completion delay are not
  modelled; ticks are discrete steps.
*/
module Loading {

  /** The five phase labels, in order. */
  const Texts: seq<string> := [
    "Inicializando sistemas...",
    "Cargando naves espaciales...",
    "Configurando motores de propulsión...",
    "Estableciendo comunicaciones...",
    "Preparando exploración..."
  ]

  /** Percentage points added per tick, points per phase, and the final percentage. */
  const Increment: nat := 2
  const PhaseWidth: nat := 20
  const Full: nat := 100

  /** Number of ticks from 0 to 100. */
  const TicksToComplete: nat := 50

  /**
    The screen's state: its two displayed fields, whether the interval timer
    is still running, and how many times the completion callback has been
    scheduled with setTimeout.
  */
  datatype LoadState = LoadState(
    progress: nat,
    loadingText: string,
    intervalActive: bool,
    completionsScheduled: nat)

  function Initial(): LoadState
  {
    LoadState(0, Texts[0], true, 0)
  }

  /** One interval tick; once the interval is cleared a tick cannot happen, so nothing changes. */
  function Tick(s: LoadState): LoadState
  {
    if !s.intervalActive then s
    else
      var newProgress := s.progress + Increment;
      var textIndex := newProgress / PhaseWidth;
      var text := if textIndex < |Texts| then Texts[textIndex] else s.loadingText;
      if newProgress >= Full then
        LoadState(Full, text, false, s.completionsScheduled + 1)
      else
        LoadState(newProgress, text, true, s.completionsScheduled)
  }

  /** The effect cleanup on unmount: the interval is cleared, nothing else. */
  function Dispose(s: LoadState): LoadState
  {
    s.(intervalActive := false)
  }

  /** The state after n ticks. */
  function Ticks(s: LoadState, n: nat): LoadState
  {
    if n == 0 then s else Tick(Ticks(s, n - 1))
  }

  /** The label shown at progress p: the phase p / 20, the last phase from 100 on. */
  function PhaseText(p: nat): string
  {
    Texts[if p / PhaseWidth < |Texts| then p / PhaseWidth else |Texts| - 1]
  }

  /**
    The screen's invariant: progress is even and within [0, 100], the label is
    the phase of the progress, the timer stops at 100, and completion has been
    scheduled once exactly when progress is 100.
  */
  predicate Valid(s: LoadState)
  {
    s.progress % 2 == 0 && s.progress <= Full
    && s.loadingText == PhaseText(s.progress)
    && (s.progress == Full ==> !s.intervalActive)
    && s.completionsScheduled == (if s.progress == Full then 1 else 0)
  }

  lemma InitialValid()
    ensures Valid(Initial())
    ensures Initial().progress == 0 && Initial().loadingText == "Inicializando sistemas..."
  {
  }

  lemma TickPreservesValid(s: LoadState)
    requires Valid(s)
    ensures Valid(Tick(s))
  {
  }

  lemma DisposePreservesValid(s: LoadState)
    requires Valid(s)
    ensures Valid(Dispose(s))
  {
  }

  /** A tick never lowers progress and never takes it above 100. */
  lemma TickMonotone(s: LoadState)
    requires s.progress <= Full
    ensures s.progress <= Tick(s).progress <= Full
  {
  }

  /** Before completion a tick adds exactly 2. */
  lemma TickAddsTwo(s: LoadState)
    requires Valid(s) && s.intervalActive
    ensures Tick(s).progress == s.progress + 2
  {
  }

  /**
    The label after a running tick is the phase of the new progress when that
    phase exists, and otherwise stays what it was.
  */
  lemma TickText(s: LoadState)
    requires s.intervalActive
    ensures var p := s.progress + 2;
      Tick(s).loadingText == if p / 20 < 5 then Texts[p / 20] else s.loadingText
  {
  }

  /** In every valid state the label is one of the five phase labels. */
  lemma TextIsAPhase(s: LoadState)
    requires Valid(s)
    ensures s.loadingText in Texts
  {
  }

  /** Closed form of the run from the initial state: 2 points per tick until 50 ticks, then 100 for good. */
  lemma {:induction false} TicksFromInitial(n: nat)
    ensures Ticks(Initial(), n) ==
      if n < TicksToComplete then LoadState(2 * n, PhaseText(2 * n), true, 0)
      else LoadState(Full, Texts[4], false, 1)
  {
    if n > 0 {
      TicksFromInitial(n - 1);
    }
  }

  /** Once the interval is cleared, any further ticks change nothing. */
  lemma {:induction false} StoppedStaysPut(s: LoadState, n: nat)
    requires !s.intervalActive
    ensures Ticks(s, n) == s
  {
    if n > 0 {
      StoppedStaysPut(s, n - 1);
    }
  }

  /**
    Exactly 50 ticks reach 100: fewer leave the interval running with nothing
    scheduled, and from the 50th on completion has been scheduled exactly once.
  */
  lemma CompletesAfterFiftyTicks(n: nat)
    ensures Ticks(Initial(), n).progress == Full <==> n >= TicksToComplete
    ensures Ticks(Initial(), n).intervalActive <==> n < TicksToComplete
    ensures Ticks(Initial(), n).completionsScheduled == if n < TicksToComplete then 0 else 1
  {
    TicksFromInitial(n);
  }

  /** Progress strictly increases over the first 50 ticks. */
  lemma StrictlyIncreasing(m: nat, n: nat)
    requires m < n <= TicksToComplete
    ensures Ticks(Initial(), m).progress < Ticks(Initial(), n).progress
  {
    TicksFromInitial(m);
    TicksFromInitial(n);
  }

  /** Every state reached from the initial one satisfies the invariant. */
  lemma ReachableValid(n: nat)
    ensures Valid(Ticks(Initial(), n))
  {
    TicksFromInitial(n);
  }

  /** After unmounting, a late tick cannot write to the state. */
  lemma NoWriteAfterDispose(s: LoadState, n: nat)
    ensures Ticks(Dispose(s), n) == Dispose(s)
  {
    StoppedStaysPut(Dispose(s), n);
  }

  /** The component instance: its state fields and the interval callback. */
  class LoadingScreen {
    var progress: nat
    var loadingText: string
    var intervalActive: bool
    var completionsScheduled: nat

    function State(): LoadState
      reads this
    {
      LoadState(progress, loadingText, intervalActive, completionsScheduled)
    }

    /** Mounting: useState(0), useState(first label), and the effect starts the interval. */
    constructor()
      ensures State() == Initial() && Valid(State())
    {
      progress := 0;
      loadingText := Texts[0];
      intervalActive := true;
      completionsScheduled := 0;
    }

    /**
      The interval callback; `scheduled` tells whether this tick scheduled the
      completion callback.
    */
    method OnInterval() returns (scheduled: bool)
      modifies this
      ensures State() == Tick(old(State()))
      ensures scheduled <==> completionsScheduled == old(completionsScheduled) + 1
      ensures Valid(old(State())) ==> Valid(State())
    {
      scheduled := false;
      if !intervalActive {
        return;
      }
      var newProgress := progress + Increment;
      var textIndex := newProgress / PhaseWidth;
      if textIndex < |Texts| {
        loadingText := Texts[textIndex];
      }
      if newProgress >= Full {
        intervalActive := false;
        completionsScheduled := completionsScheduled + 1;
        scheduled := true;
        progress := Full;
      } else {
        progress := newProgress;
      }
    }

    /** The effect's cleanup, run on unmount. */
    method Unmount()
      modifies this
      ensures State() == Dispose(old(State()))
    {
      intervalActive := false;
    }
  }
}
