/**
  The top-level page: it owns the selected ship and the loading flag. The
  scene's click callback overwrites the selection, the panel's close control
  clears it, and the loading screen's completion callback clears the loading
  flag. The detail panel is shown exactly while a ship is selected, the
  loading screen exactly while the flag is set.
*/
module Explorer {

  import opened Wrappers
  import opened Catalog
  import SpaceshipInfo
  import Scene
  import Loading

  datatype AppState = AppState(selectedSpaceship: Option<SpaceshipRecord>, isLoading: bool)

  /** The three callbacks that change the page's state. */
  datatype Event = Select(ship: SpaceshipRecord) | Close | LoadingComplete

  /** What the page shows on top of the 3D canvas. */
  datatype Screen = Screen(loadingScreen: bool, detail: Option<SpaceshipInfo.Panel>)

  function Initial(): AppState
  {
    AppState(None, true)
  }

  function Apply(s: AppState, e: Event): AppState
  {
    match e
    case Select(ship) => s.(selectedSpaceship := Some(ship))
    case Close => s.(selectedSpaceship := None)
    case LoadingComplete => s.(isLoading := false)
  }

  /** The state after a sequence of events, applied in order. */
  function Run(s: AppState, events: seq<Event>): AppState
    decreases |events|
  {
    if events == [] then s else Run(Apply(s, events[0]), events[1..])
  }

  /**
    The selection read off the events from the back: the latest select or
    close decides it; with neither, the selection is what it was.
  */
  function LatestSelection(selected: Option<SpaceshipRecord>, events: seq<Event>): Option<SpaceshipRecord>
  {
    if events == [] then selected
    else match events[|events| - 1]
      case Select(ship) => Some(ship)
      case Close => None
      case LoadingComplete => LatestSelection(selected, events[..|events| - 1])
  }

  /** The page's rendering of its state. */
  function View(s: AppState): (screen: Screen)
    ensures screen.loadingScreen == s.isLoading
    ensures screen.detail.Some? <==> s.selectedSpaceship.Some?
    ensures s.selectedSpaceship.Some? ==> screen.detail.value == SpaceshipInfo.Render(s.selectedSpaceship.value)
    ensures s.selectedSpaceship.Some? ==> screen.detail.value.title == s.selectedSpaceship.value.name
  {
    Screen(s.isLoading,
      match s.selectedSpaceship
      case Some(ship) => Some(SpaceshipInfo.Render(ship))
      case None => None)
  }

  lemma InitialState()
    ensures Initial().selectedSpaceship == None && Initial().isLoading
    ensures View(Initial()).loadingScreen && View(Initial()).detail == None
  {
  }

  /**
    Selecting while a panel is open replaces the shown record directly, and
    closing returns to no selection whatever was shown.
  */
  lemma SelectAndClose(s: AppState, a: SpaceshipRecord, b: SpaceshipRecord)
    ensures Apply(Apply(s, Select(a)), Select(b)).selectedSpaceship == Some(b)
    ensures View(Apply(Apply(s, Select(a)), Select(b))).detail == Some(SpaceshipInfo.Render(b))
    ensures Apply(s, Close).selectedSpaceship == None && View(Apply(s, Close)).detail == None
  {
  }

  /** Selection and loading transitions never touch the other field. */
  lemma TransitionsIndependent(s: AppState, e: Event)
    ensures !e.LoadingComplete? ==> Apply(s, e).isLoading == s.isLoading
    ensures e.LoadingComplete? ==> Apply(s, e).selectedSpaceship == s.selectedSpaceship
  {
  }

  /** After any sequence of events the selection is the one the latest select or close left. */
  lemma {:induction false} RunSelection(s: AppState, events: seq<Event>)
    ensures Run(s, events).selectedSpaceship == LatestSelection(s.selectedSpaceship, events)
    decreases |events|
  {
    if events != [] {
      RunSelection(Apply(s, events[0]), events[1..]);
      LatestSelectionFront(s.selectedSpaceship, events);
    }
  }

  /** LatestSelection can equally be computed by first applying the earliest event. */
  lemma {:induction false} LatestSelectionFront(selected: Option<SpaceshipRecord>, events: seq<Event>)
    requires events != []
    ensures LatestSelection(selected, events)
      == LatestSelection(Apply(AppState(selected, true), events[0]).selectedSpaceship, events[1..])
  {
    var n := |events|;
    if n > 1 {
      assert events[..n - 1][1..] == events[1..][..n - 2];
      assert events[1..][n - 2] == events[n - 1];
      match events[n - 1]
      case LoadingComplete =>
        LatestSelectionFront(selected, events[..n - 1]);
      case _ =>
    }
  }

  /** The loading screen is gone for good once completion has fired; before that only completion removes it. */
  lemma {:induction false} RunLoading(s: AppState, events: seq<Event>)
    ensures Run(s, events).isLoading <==> s.isLoading && LoadingComplete !in events
    decreases |events|
  {
    if events != [] {
      RunLoading(Apply(s, events[0]), events[1..]);
      assert events == [events[0]] + events[1..];
    }
  }

  /** The page component's state and its three callbacks. */
  class SpaceExplorer {
    var selectedSpaceship: Option<SpaceshipRecord>
    var isLoading: bool

    function State(): AppState
      reads this
    {
      AppState(selectedSpaceship, isLoading)
    }

    function Shown(): Screen
      reads this
    {
      View(State())
    }

    constructor()
      ensures State() == Initial()
    {
      selectedSpaceship := None;
      isLoading := true;
    }

    /** setSelectedSpaceship, passed to the scene as its selection callback. */
    method Select(ship: SpaceshipRecord)
      modifies this
      ensures State() == Apply(old(State()), Event.Select(ship))
      ensures selectedSpaceship == Some(ship) && isLoading == old(isLoading)
    {
      selectedSpaceship := Some(ship);
    }

    /** The panel's onClose: setSelectedSpaceship(null). */
    method Close()
      modifies this
      ensures State() == Apply(old(State()), Event.Close)
      ensures selectedSpaceship == None && isLoading == old(isLoading)
    {
      selectedSpaceship := None;
    }

    /** The loading screen's onComplete: setIsLoading(false). */
    method CompleteLoading()
      modifies this
      ensures State() == Apply(old(State()), LoadingComplete)
      ensures !isLoading && selectedSpaceship == old(selectedSpaceship)
    {
      isLoading := false;
    }

    /** A press on one of the panel's controls: only the close control has a handler. */
    method Press(c: SpaceshipInfo.Control)
      modifies this
      ensures State() == if SpaceshipInfo.InvokesClose(c) then Apply(old(State()), Event.Close) else old(State())
    {
      if SpaceshipInfo.InvokesClose(c) {
        Close();
      }
    }
  }

  /**
    Start-up: the loading screen ticks until its interval stops, its
    completion callback fires, and the page stops showing it. It takes 50 ticks.
  */
  method Startup() returns (ticks: nat, loadingShown: bool)
    ensures ticks == Loading.TicksToComplete
    ensures !loadingShown
  {
    var page := new SpaceExplorer();
    var screen := new Loading.LoadingScreen();
    ticks := 0;
    var scheduled := false;
    while !scheduled
      invariant ticks <= Loading.TicksToComplete
      invariant screen.State() == Loading.Ticks(Loading.Initial(), ticks)
      invariant scheduled <==> ticks == Loading.TicksToComplete
      decreases Loading.TicksToComplete - ticks
    {
      Loading.CompletesAfterFiftyTicks(ticks);
      Loading.CompletesAfterFiftyTicks(ticks + 1);
      scheduled := screen.OnInterval();
      ticks := ticks + 1;
    }
    page.CompleteLoading();
    loadingShown := page.Shown().loadingScreen;
  }

  /**
    Clicking the second ship of the catalog opens a panel titled
    "Crucero de Batalla" with one row for each of its four specs.
  */
  method ClickSecondShip() returns (id: int, title: string, rows: nat)
    ensures id == 2 && title == "Crucero de Batalla" && rows == 4
  {
    var page := new SpaceExplorer();
    var objects := Scene.Mount(Ships);
    var clicked := objects[1].Click();
    page.Select(clicked);
    var shown := page.Shown();
    id := clicked.id;
    title := shown.detail.value.title;
    rows := |shown.detail.value.rows|;
  }
}
