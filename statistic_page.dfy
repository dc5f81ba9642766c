/** The statistics page of the front end: which loads it requests on mount,
    the failure messages it collects when a load fails, and the flags that
    decide between spinner and tables. */
module StatisticPage {

  /** The load status of one dataset; statuses other than the two the page
      tests are kept apart by name. */
  datatype LoadStatus = Completed | Failed | Other(name: string)

  /** The elements of the three lists as the front end receives them; the
      page only ever asks whether a list is empty. */
  datatype BestUserData = BestUserData(id: int, name: string, playedTime: int, scores: int)
  datatype RecentGameData = RecentGameData(game: string, playedTime: int, result: bool)
  datatype PopularGameData = PopularGameData(name: string, playedTime: int, playedInWeek: int)

  /** The `statistic` slice of the store the page receives as props. */
  datatype StatisticState = StatisticState(
    bestUsers: seq<BestUserData>,
    recentGames: seq<RecentGameData>,
    mostPopularGames: seq<PopularGameData>,
    bestUsersStatus: LoadStatus,
    recentGamesStatus: LoadStatus,
    mostPopularGamesStatus: LoadStatus)

  datatype StatisticProps = StatisticProps(statistic: StatisticState, userId: int)

  /** One snackbar entry: its `type` and its message. */
  datatype SnackbarData = SnackbarData(kind: string, msg: string)

  const BestUsersFailedMsg: string := "User Init failed"
  const RecentGamesFailedMsg: string := "Recent Games Init failed"
  const MostPopularGamesFailedMsg: string := "Most Popular Games Init failed"

  /** The load actions the page dispatches. */
  datatype InitRequest = InitBestUsers | InitMostPopularGames | InitRecentGames(userId: int)

  /** The position of a load action in the order `componentWillMount` tests
      the datasets. */
  function RequestRank(q: InitRequest): int {
    match q
    case InitBestUsers => 0
    case InitMostPopularGames => 1
    case InitRecentGames(_) => 2
  }

  /** A dataset has just failed: FAILED now, and something else before. */
  predicate FailedNow(prev: LoadStatus, next: LoadStatus) {
    next == Failed && next != prev
  }

  /** The entries `componentWillReceiveProps` appends for a change from `prev`
      to `next`: each dataset's message exactly on its failure edge, typed
      `error`, and something iff the snackbar is opened. */
  function FailureMessages(prev: StatisticState, next: StatisticState): (m: seq<SnackbarData>)
    ensures SnackbarData("error", BestUsersFailedMsg) in m <==> next.bestUsersStatus == Failed && prev.bestUsersStatus != Failed
    ensures SnackbarData("error", RecentGamesFailedMsg) in m <==> next.recentGamesStatus == Failed && prev.recentGamesStatus != Failed
    ensures SnackbarData("error", MostPopularGamesFailedMsg) in m <==> next.mostPopularGamesStatus == Failed && prev.mostPopularGamesStatus != Failed
    ensures forall i :: 0 <= i < |m| ==> m[i].kind == "error"
    ensures forall i :: 0 <= i < |m| ==> m[i].msg in [BestUsersFailedMsg, RecentGamesFailedMsg, MostPopularGamesFailedMsg]
    ensures m != [] <==> AnyFailedNow(prev, next)
  {
    (if FailedNow(prev.bestUsersStatus, next.bestUsersStatus) then [SnackbarData("error", BestUsersFailedMsg)] else []) +
    (if FailedNow(prev.recentGamesStatus, next.recentGamesStatus) then [SnackbarData("error", RecentGamesFailedMsg)] else []) +
    (if FailedNow(prev.mostPopularGamesStatus, next.mostPopularGamesStatus) then [SnackbarData("error", MostPopularGamesFailedMsg)] else [])
  }

  /** The position of a message in the order the page tests the datasets. */
  function Rank(msg: string): int {
    if msg == BestUsersFailedMsg then 0 else if msg == RecentGamesFailedMsg then 1 else 2
  }

  /** Whatever edges fire, the messages come in the order best users, recent
      games, most popular games, with no message twice; with all three edges
      firing the list is exactly the three messages. */
  lemma FailureMessagesOrder(prev: StatisticState, next: StatisticState)
    ensures var m := FailureMessages(prev, next);
      && (forall i, j :: 0 <= i < j < |m| ==> Rank(m[i].msg) < Rank(m[j].msg))
      && |m| <= 3
    ensures FailedNow(prev.bestUsersStatus, next.bestUsersStatus) &&
            FailedNow(prev.recentGamesStatus, next.recentGamesStatus) &&
            FailedNow(prev.mostPopularGamesStatus, next.mostPopularGamesStatus) ==>
      FailureMessages(prev, next) ==
        [SnackbarData("error", BestUsersFailedMsg), SnackbarData("error", RecentGamesFailedMsg),
         SnackbarData("error", MostPopularGamesFailedMsg)]
  {
  }

  /** Receiving the same statuses again appends nothing: a failure is
      reported once per edge, not once per update. */
  lemma NoRepeatWhileStillFailed(prev: StatisticState, next: StatisticState)
    requires prev.bestUsersStatus == next.bestUsersStatus
    requires prev.recentGamesStatus == next.recentGamesStatus
    requires prev.mostPopularGamesStatus == next.mostPopularGamesStatus
    ensures FailureMessages(prev, next) == []
  {
  }

  /** The condition under which `openSnackbar` is dispatched. */
  predicate AnyFailedNow(prev: StatisticState, next: StatisticState) {
    || FailedNow(prev.bestUsersStatus, next.bestUsersStatus)
    || FailedNow(prev.recentGamesStatus, next.recentGamesStatus)
    || FailedNow(prev.mostPopularGamesStatus, next.mostPopularGamesStatus)
  }

  /** All three loads ended the same way. */
  predicate SameOutcome(s: StatisticState) {
    s.bestUsersStatus == s.recentGamesStatus && s.recentGamesStatus == s.mostPopularGamesStatus
  }

  /** `isDataLoaded`: all three loads ended, and they all completed. */
  function IsDataLoaded(s: StatisticState): (loaded: bool)
    ensures loaded <==> SameOutcome(s) && s.bestUsersStatus == Completed
  {
    s.bestUsersStatus == Completed && s.recentGamesStatus == Completed && s.mostPopularGamesStatus == Completed
  }

  /** `isDataFailed`: all three loads ended, and they all failed; never at the
      same time as `isDataLoaded`. */
  function IsDataFailed(s: StatisticState): (failed: bool)
    ensures failed <==> SameOutcome(s) && s.bestUsersStatus == Failed
    ensures failed ==> !IsDataLoaded(s)
  {
    s.bestUsersStatus == Failed && s.recentGamesStatus == Failed && s.mostPopularGamesStatus == Failed
  }

  /** Whether `render` shows the spinner rather than the tables: the tables
      come only once all three loads ended the same way, completed or failed. */
  function ShowsSpinner(s: StatisticState): (spinner: bool)
    ensures !spinner <==> SameOutcome(s) && (s.bestUsersStatus == Completed || s.bestUsersStatus == Failed)
  {
    !IsDataLoaded(s) && !IsDataFailed(s)
  }

  /** When some datasets completed and others failed the spinner stays, the
      tables never showing. */
  lemma SpinnerOnMixedOutcome(s: StatisticState)
    ensures (s.bestUsersStatus == Completed || s.recentGamesStatus == Completed || s.mostPopularGamesStatus == Completed) &&
            (s.bestUsersStatus == Failed || s.recentGamesStatus == Failed || s.mostPopularGamesStatus == Failed)
            ==> ShowsSpinner(s)
  {
  }

  /** The filter at `render`: `d => (d.type = 'error')` assigns to every entry
      and, `'error'` being truthy, keeps every entry. */
  function MarkedAsErrors(s: seq<SnackbarData>): (r: seq<SnackbarData>)
    ensures |r| == |s|
    ensures forall i :: 0 <= i < |s| ==> r[i].kind == "error" && r[i].msg == s[i].msg
  {
    if s == [] then [] else [SnackbarData("error", s[0].msg)] + MarkedAsErrors(s[1..])
  }

  /** Entries that already have type `error` (all the page ever pushes) come
      through the filter unchanged. */
  lemma {:induction false} MarkedAsErrorsKeepsErrorEntries(s: seq<SnackbarData>)
    requires forall i :: 0 <= i < |s| ==> s[i].kind == "error"
    ensures MarkedAsErrors(s) == s
  {
    if s != [] {
      MarkedAsErrorsKeepsErrorEntries(s[1..]);
    }
  }

  class CaStatisticPageComponent {
    var props: StatisticProps
    var dataForSnack: seq<SnackbarData>

    constructor (props: StatisticProps)
      ensures this.props == props && dataForSnack == []
    {
      this.props := props;
      dataForSnack := [];
    }

    /** `componentWillMount`: the loads requested, one per empty dataset, in
        the order best users, most popular games, recent games. */
    function MountRequests(): (r: seq<InitRequest>)
      reads this
      ensures InitBestUsers in r <==> props.statistic.bestUsers == []
      ensures InitMostPopularGames in r <==> props.statistic.mostPopularGames == []
      ensures InitRecentGames(props.userId) in r <==> props.statistic.recentGames == []
      ensures forall q :: q in r && q.InitRecentGames? ==> q.userId == props.userId
      ensures |r| <= 3 && forall i, j :: 0 <= i < j < |r| ==> RequestRank(r[i]) < RequestRank(r[j])
    {
      (if props.statistic.bestUsers == [] then [InitBestUsers] else []) +
      (if props.statistic.mostPopularGames == [] then [InitMostPopularGames] else []) +
      (if props.statistic.recentGames == [] then [InitRecentGames(props.userId)] else [])
    }

    /** `componentWillReceiveProps` followed by React's switch to the new
        props: appends a message per failure edge and reports whether
        `openSnackbar` is dispatched. */
    method ComponentWillReceiveProps(nextProps: StatisticProps) returns (openSnackbar: bool)
      modifies this
      ensures dataForSnack == old(dataForSnack) + FailureMessages(old(props).statistic, nextProps.statistic)
      ensures old(dataForSnack) <= dataForSnack
      ensures openSnackbar <==> AnyFailedNow(old(props).statistic, nextProps.statistic)
      ensures props == nextProps
    {
      var prev := props.statistic;
      var next := nextProps.statistic;
      var isBestUsersInitFailed := next.bestUsersStatus == Failed && next.bestUsersStatus != prev.bestUsersStatus;
      var isRecentGamesInitFailed := next.recentGamesStatus == Failed && next.recentGamesStatus != prev.recentGamesStatus;
      var isMostPopularGamesFailed := next.mostPopularGamesStatus == Failed && next.mostPopularGamesStatus != prev.mostPopularGamesStatus;

      if isBestUsersInitFailed {
        dataForSnack := dataForSnack + [SnackbarData("error", BestUsersFailedMsg)];
      }
      if isRecentGamesInitFailed {
        dataForSnack := dataForSnack + [SnackbarData("error", RecentGamesFailedMsg)];
      }
      if isMostPopularGamesFailed {
        dataForSnack := dataForSnack + [SnackbarData("error", MostPopularGamesFailedMsg)];
      }
      openSnackbar := isBestUsersInitFailed || isRecentGamesInitFailed || isMostPopularGamesFailed;
      props := nextProps;
    }

    /** The part of `render` that computes: rewrites every entry's type to
        `error`, shows all of them, and picks spinner or tables. */
    method Render() returns (errorMessages: seq<SnackbarData>, spinner: bool)
      modifies this`dataForSnack
      ensures dataForSnack == MarkedAsErrors(old(dataForSnack))
      ensures errorMessages == dataForSnack
      ensures spinner == ShowsSpinner(props.statistic)
    {
      dataForSnack := MarkedAsErrors(dataForSnack);
      errorMessages := dataForSnack;
      var isDataLoaded := IsDataLoaded(props.statistic);
      var isDataFailed := IsDataFailed(props.statistic);
      spinner := !isDataLoaded && !isDataFailed;
    }
  }
}
