/** The statistics repository of the game server: saving the results a game
    client reports, and the three read projections (recent games of a user,
    most popular games, best users), over an abstract row store. */
module StatisticRepository {
  import opened Wrappers

  // ---------------------------------------------------------------------------
  // Rows of the store
  // ---------------------------------------------------------------------------

  /** A registered game: its opaque app token and its display name. */
  datatype AppTokenRow = AppTokenRow(token: string, appName: string)

  datatype UserRow = UserRow(id: int, name: string, isActive: bool)

  /** One persisted play session. */
  datatype StatisticRow = StatisticRow(appToken: string, userId: int, playedTime: int, scores: int, isWin: bool)

  /** One entry of the statistic list a game client sends. */
  datatype StatisticEntry = StatisticEntry(userId: int, playedTime: int, scores: int, isWin: bool)

  const NotRegisteredMessage: string := "you must register your game and provide correct app token"
  const InactiveUserReason: string := "User should be Active"

  /** What the promise of `setGameResult` resolves with: `true`, or the refusal
      message. The refusal is a resolved value, not a rejection. */
  datatype GameResultValue = SavedAll | RefusalMessage(text: string)

  /** The error object thrown when `appName` is read from a missing app-token row. */
  datatype Fault = AppNameOfMissingRow

  /** What the promise of `getRecentGames` resolves with: the list, or the
      caught error, which `.catch(err => err)` turns into the resolved value. */
  datatype Resolution<T> = Value(value: T) | CaughtError(fault: Fault)

  /** How the promise of `getBestUsers` settles. */
  datatype Settled<T> = Resolved(value: T) | Rejected(reason: string)

  // ---------------------------------------------------------------------------
  // Queries of the store
  // ---------------------------------------------------------------------------

  ghost predicate Registered(appTokens: seq<AppTokenRow>, token: string) {
    exists i :: 0 <= i < |appTokens| && appTokens[i].token == token
  }

  /** Position of the first app-token row carrying `token`, or -1. */
  function FirstTokenIndex(appTokens: seq<AppTokenRow>, token: string): (k: int)
    ensures -1 <= k < |appTokens|
    ensures k == -1 ==> forall i :: 0 <= i < |appTokens| ==> appTokens[i].token != token
    ensures 0 <= k ==> appTokens[k].token == token && forall i :: 0 <= i < k ==> appTokens[i].token != token
  {
    if appTokens == [] then -1
    else if appTokens[0].token == token then 0
    else
      var k := FirstTokenIndex(appTokens[1..], token);
      if k == -1 then -1 else k + 1
  }

  /** `findOne({ where: { token } })` and `Array.find(el => el.token === token)`:
      the first app-token row carrying `token`, if any. */
  function FindToken(appTokens: seq<AppTokenRow>, token: string): (r: Option<AppTokenRow>)
    ensures r.Some? <==> Registered(appTokens, token)
    ensures r.Some? ==> r.value.token == token && r.value in appTokens
  {
    var k := FirstTokenIndex(appTokens, token);
    if k == -1 then None else Some(appTokens[k])
  }

  /** With registered tokens pairwise distinct, the row found is the only one. */
  lemma FindUniqueToken(appTokens: seq<AppTokenRow>, i: nat)
    requires i < |appTokens|
    requires forall j, k :: 0 <= j < k < |appTokens| ==> appTokens[j].token != appTokens[k].token
    ensures FindToken(appTokens, appTokens[i].token) == Some(appTokens[i])
  {
    var k := FirstTokenIndex(appTokens, appTokens[i].token);
    assert k == i;
  }

  /** `StatisticModel.findAll({ where: { userId } })`, in store order: every
      row of the user, as many times as the store holds it, and no other row. */
  function RowsOfUser(rows: seq<StatisticRow>, userId: int): (r: seq<StatisticRow>)
    ensures forall x :: multiset(r)[x] == if x.userId == userId then multiset(rows)[x] else 0
    ensures forall x :: x in r <==> x in rows && x.userId == userId
    ensures |r| <= |rows|
    ensures (forall x :: x in rows ==> x.userId != userId) ==> r == []
  {
    if rows == [] then []
    else
      assert rows == [rows[0]] + rows[1..];
      if rows[0].userId == userId then [rows[0]] + RowsOfUser(rows[1..], userId)
      else RowsOfUser(rows[1..], userId)
  }

  /** The query keeps store order: the rows of a concatenation are the rows of
      each part, one after the other. */
  lemma {:induction false} RowsOfUserKeepsOrder(a: seq<StatisticRow>, b: seq<StatisticRow>, userId: int)
    ensures RowsOfUser(a + b, userId) == RowsOfUser(a, userId) + RowsOfUser(b, userId)
  {
    if a == [] {
      assert a + b == b;
    } else {
      assert (a + b)[1..] == a[1..] + b;
      RowsOfUserKeepsOrder(a[1..], b, userId);
    }
  }

  /** `StatisticModel.findAll({ where: { appToken } })`, in store order: every
      row of the token, as many times as the store holds it, and no other row. */
  function RowsWithToken(rows: seq<StatisticRow>, token: string): (r: seq<StatisticRow>)
    ensures forall x :: multiset(r)[x] == if x.appToken == token then multiset(rows)[x] else 0
    ensures forall x :: x in r <==> x in rows && x.appToken == token
    ensures |r| <= |rows|
    ensures (forall x :: x in rows ==> x.appToken != token) ==> r == []
  {
    if rows == [] then []
    else
      assert rows == [rows[0]] + rows[1..];
      if rows[0].appToken == token then [rows[0]] + RowsWithToken(rows[1..], token)
      else RowsWithToken(rows[1..], token)
  }

  /** The query keeps store order, as `RowsOfUserKeepsOrder` states for users. */
  lemma {:induction false} RowsWithTokenKeepsOrder(a: seq<StatisticRow>, b: seq<StatisticRow>, token: string)
    ensures RowsWithToken(a + b, token) == RowsWithToken(a, token) + RowsWithToken(b, token)
  {
    if a == [] {
      assert a + b == b;
    } else {
      assert (a + b)[1..] == a[1..] + b;
      RowsWithTokenKeepsOrder(a[1..], b, token);
    }
  }

  // ---------------------------------------------------------------------------
  // setGameResult / saveStatistic
  // ---------------------------------------------------------------------------

  /** The entry a row was saved from: the row without its token. */
  function EntryOf(row: StatisticRow): StatisticEntry {
    StatisticEntry(row.userId, row.playedTime, row.scores, row.isWin)
  }

  /** The row `saveStatistic` builds for one entry: it carries the token and
      gives the entry back unchanged. */
  function Tagged(token: string, stat: StatisticEntry): (row: StatisticRow)
    ensures row.appToken == token && EntryOf(row) == stat
  {
    StatisticRow(token, stat.userId, stat.playedTime, stat.scores, stat.isWin)
  }

  /** The rows a batch of entries becomes: one per entry, at the same
      position, tagged with the token and giving back that entry. */
  function TagAll(token: string, stats: seq<StatisticEntry>): (r: seq<StatisticRow>)
    ensures |r| == |stats|
    ensures forall k :: 0 <= k < |stats| ==> r[k].appToken == token && EntryOf(r[k]) == stats[k]
  {
    if stats == [] then []
    else TagAll(token, stats[..|stats| - 1]) + [Tagged(token, stats[|stats| - 1])]
  }

  /** The token the server accepts: a row carries it and, the check being
      `tokenRow && tokenRow.token`, it is not the empty (falsy) string. */
  ghost predicate TokenAccepted(appTokens: seq<AppTokenRow>, appToken: string) {
    appToken != "" && Registered(appTokens, appToken)
  }

  /** The persistence collaborator: the three tables as sequences. */
  class StatisticStore {
    var appTokens: seq<AppTokenRow>
    var users: seq<UserRow>
    var rows: seq<StatisticRow>

    constructor (appTokens: seq<AppTokenRow>, users: seq<UserRow>, rows: seq<StatisticRow>)
      ensures this.appTokens == appTokens && this.users == users && this.rows == rows
    {
      this.appTokens := appTokens;
      this.users := users;
      this.rows := rows;
    }

    /** `saveStatistic`: builds the row for one entry and saves it. */
    method SaveStatistic(token: string, stat: StatisticEntry) returns (saved: bool)
      modifies this`rows
      ensures rows == old(rows) + [Tagged(token, stat)]
      ensures saved
    {
      rows := rows + [Tagged(token, stat)];
      saved := true;
    }

    /** `setGameResult`: resolves the app token once; if it is accepted, saves
        one row per entry, in order; otherwise saves nothing and resolves with
        the refusal message. */
    method SetGameResult(statistic: seq<StatisticEntry>, appToken: string) returns (r: GameResultValue)
      modifies this`rows
      ensures r.SavedAll? <==> TokenAccepted(appTokens, appToken)
      ensures r.RefusalMessage? ==> r.text == NotRegisteredMessage && rows == old(rows)
      ensures r.SavedAll? ==> rows == old(rows) + TagAll(appToken, statistic)
      ensures |rows| == |old(rows)| + (if r.SavedAll? then |statistic| else 0)
    {
      var tokenRow := FindToken(appTokens, appToken);
      var token := if tokenRow.Some? then tokenRow.value.token else "";
      if token != "" {
        var i := 0;
        while i < |statistic|
          invariant 0 <= i <= |statistic|
          invariant rows == old(rows) + TagAll(token, statistic[..i])
        {
          var _ := SaveStatistic(token, statistic[i]);
          assert statistic[..i + 1][..i] == statistic[..i];
          i := i + 1;
        }
        assert statistic[..i] == statistic;
        r := SavedAll;
      } else {
        r := RefusalMessage(NotRegisteredMessage);
      }
    }
  }

  // ---------------------------------------------------------------------------
  // getRecentGames
  // ---------------------------------------------------------------------------

  datatype RecentGame = RecentGame(game: string, playedTime: int, result: bool)

  /** The lookups `row.appName` for each fetched row, gathered by `Promise.all`:
      absent as soon as one row's token has no app-token row. */
  function AppNames(appTokens: seq<AppTokenRow>, fetched: seq<StatisticRow>): (names: Option<seq<string>>)
    ensures names.Some? <==> forall i :: 0 <= i < |fetched| ==> Registered(appTokens, fetched[i].appToken)
    ensures names.Some? ==> |names.value| == |fetched|
    ensures names.Some? ==> forall i :: 0 <= i < |fetched| ==>
      FindToken(appTokens, fetched[i].appToken) == Some(AppTokenRow(fetched[i].appToken, names.value[i]))
  {
    if fetched == [] then Some([])
    else
      match (FindToken(appTokens, fetched[0].appToken), AppNames(appTokens, fetched[1..]))
      case (Some(row), Some(rest)) => Some([row.appName] + rest)
      case (_, _) => None
  }

  /** `getRecentGames`, given the user's rows as the store returns them
      (`createdAt` descending): one entry per row, in that order, or the
      caught error when a row's token is not registered. */
  function GetRecentGames(appTokens: seq<AppTokenRow>, fetched: seq<StatisticRow>): (r: Resolution<seq<RecentGame>>)
    ensures fetched == [] ==> r == Value([])
    ensures r.CaughtError? <==> exists i :: 0 <= i < |fetched| && !Registered(appTokens, fetched[i].appToken)
    ensures r.Value? ==> |r.value| == |fetched|
    ensures r.Value? ==> forall i :: 0 <= i < |fetched| ==>
      (&& FindToken(appTokens, fetched[i].appToken) == Some(AppTokenRow(fetched[i].appToken, r.value[i].game))
       && r.value[i].playedTime == fetched[i].playedTime
       && r.value[i].result == fetched[i].isWin)
  {
    match AppNames(appTokens, fetched)
    case None => CaughtError(AppNameOfMissingRow)
    case Some(names) =>
      if |fetched| == 0 then Value([])
      else Value(seq(|fetched|, i requires 0 <= i < |fetched| =>
                   RecentGame(names[i], fetched[i].playedTime, fetched[i].isWin)))
  }

  /** A user without rows in the store gets the empty list, whatever order
      the store returns the (empty) result in. */
  lemma RecentGamesOfUserWithoutRows(appTokens: seq<AppTokenRow>, rows: seq<StatisticRow>, userId: int, fetched: seq<StatisticRow>)
    requires multiset(fetched) == multiset(RowsOfUser(rows, userId))
    requires forall i :: 0 <= i < |rows| ==> rows[i].userId != userId
    ensures GetRecentGames(appTokens, fetched) == Value([])
  {
    assert |fetched| == |multiset(fetched)|;
  }

  // ---------------------------------------------------------------------------
  // getMostPopularGames
  // ---------------------------------------------------------------------------

  /** The per-token result gathered before names are attached. */
  datatype TokenTotals = TokenTotals(token: string, playedTime: int, playedInWeek: int)

  datatype PopularGame = PopularGame(name: string, playedTime: int, playedInWeek: int)

  /** One totals record per registered token, in table order; the two
      service computations are given as `playedTimeOf` and `playedInWeekOf`. */
  function Totals(appTokens: seq<AppTokenRow>, rows: seq<StatisticRow>,
                  playedTimeOf: seq<StatisticRow> -> int, playedInWeekOf: seq<StatisticRow> -> int): (t: seq<TokenTotals>)
    ensures |t| == |appTokens|
    ensures forall i :: 0 <= i < |t| ==> t[i].token == appTokens[i].token
  {
    seq(|appTokens|, i requires 0 <= i < |appTokens| =>
      TokenTotals(appTokens[i].token,
                  playedTimeOf(RowsWithToken(rows, appTokens[i].token)),
                  playedInWeekOf(RowsWithToken(rows, appTokens[i].token))))
  }

  /** The reduce that names each totals record after the first app-token row
      with its token. */
  function Named(appTokens: seq<AppTokenRow>, totals: seq<TokenTotals>): (games: seq<PopularGame>)
    requires forall i :: 0 <= i < |totals| ==> Registered(appTokens, totals[i].token)
    ensures |games| == |totals|
    ensures forall i :: 0 <= i < |totals| ==>
      && FindToken(appTokens, totals[i].token) == Some(AppTokenRow(totals[i].token, games[i].name))
      && games[i].playedTime == totals[i].playedTime
      && games[i].playedInWeek == totals[i].playedInWeek
  {
    if totals == [] then []
    else
      var row := FindToken(appTokens, totals[0].token);
      [PopularGame(row.value.appName, totals[0].playedTime, totals[0].playedInWeek)] + Named(appTokens, totals[1..])
  }

  /** The entry a registered game should get: its own name and the times of
      its own sessions. */
  function GameOf(app: AppTokenRow, rows: seq<StatisticRow>,
                  playedTimeOf: seq<StatisticRow> -> int, playedInWeekOf: seq<StatisticRow> -> int): PopularGame {
    PopularGame(app.appName, playedTimeOf(RowsWithToken(rows, app.token)), playedInWeekOf(RowsWithToken(rows, app.token)))
  }

  /** The list handed to `sortBy(…, 'playedTime')`: exactly one entry per
      registered token, at its position, sessions or not; its times are
      computed from that token's rows and its name is the `appName` of the
      first row with that token. */
  function PopularGamesUnsorted(appTokens: seq<AppTokenRow>, rows: seq<StatisticRow>,
                                playedTimeOf: seq<StatisticRow> -> int, playedInWeekOf: seq<StatisticRow> -> int): (u: seq<PopularGame>)
    ensures |u| == |appTokens|
    ensures forall i :: 0 <= i < |appTokens| ==>
      && FindToken(appTokens, appTokens[i].token) == Some(AppTokenRow(appTokens[i].token, u[i].name))
      && u[i].playedTime == playedTimeOf(RowsWithToken(rows, appTokens[i].token))
      && u[i].playedInWeek == playedInWeekOf(RowsWithToken(rows, appTokens[i].token))
  {
    var totals := Totals(appTokens, rows, playedTimeOf, playedInWeekOf);
    assert forall i :: 0 <= i < |totals| ==>
      totals[i] == TokenTotals(appTokens[i].token,
                               playedTimeOf(RowsWithToken(rows, appTokens[i].token)),
                               playedInWeekOf(RowsWithToken(rows, appTokens[i].token)));
    Named(appTokens, totals)
  }

  /** `getMostPopularGames`; `sortBy` is the service's sort. */
  function GetMostPopularGames(appTokens: seq<AppTokenRow>, rows: seq<StatisticRow>,
                               playedTimeOf: seq<StatisticRow> -> int, playedInWeekOf: seq<StatisticRow> -> int,
                               sortBy: seq<PopularGame> -> seq<PopularGame>): (games: seq<PopularGame>)
  {
    sortBy(PopularGamesUnsorted(appTokens, rows, playedTimeOf, playedInWeekOf))
  }

  /** With distinct tokens each entry carries the name of its own token, and a
      token without sessions gets the times computed from no rows. */
  lemma PopularGamesOwnName(appTokens: seq<AppTokenRow>, rows: seq<StatisticRow>,
                            playedTimeOf: seq<StatisticRow> -> int, playedInWeekOf: seq<StatisticRow> -> int, i: nat)
    requires i < |appTokens|
    requires forall j, k :: 0 <= j < k < |appTokens| ==> appTokens[j].token != appTokens[k].token
    ensures var u := PopularGamesUnsorted(appTokens, rows, playedTimeOf, playedInWeekOf);
      && i < |u|
      && u[i].name == appTokens[i].appName
      && ((forall r :: r in rows ==> r.appToken != appTokens[i].token) ==>
            u[i].playedTime == playedTimeOf([]) && u[i].playedInWeek == playedInWeekOf([]))
  {
    FindUniqueToken(appTokens, i);
  }

  /** The games the operation should list: one per registered token, in
      table order, each under its own name with its own sessions' times. */
  function ListedGames(appTokens: seq<AppTokenRow>, rows: seq<StatisticRow>,
                       playedTimeOf: seq<StatisticRow> -> int, playedInWeekOf: seq<StatisticRow> -> int): seq<PopularGame> {
    seq(|appTokens|, i requires 0 <= i < |appTokens| => GameOf(appTokens[i], rows, playedTimeOf, playedInWeekOf))
  }

  /** The whole operation: with distinct tokens and a `sortBy` that keeps the
      elements, the result holds each registered game's entry, under its own
      name with the times of its own sessions, as many times as it has tokens,
      and nothing else. */
  lemma MostPopularGamesListsEveryGame(appTokens: seq<AppTokenRow>, rows: seq<StatisticRow>,
                                       playedTimeOf: seq<StatisticRow> -> int, playedInWeekOf: seq<StatisticRow> -> int,
                                       sortBy: seq<PopularGame> -> seq<PopularGame>)
    requires forall j, k :: 0 <= j < k < |appTokens| ==> appTokens[j].token != appTokens[k].token
    requires var u := PopularGamesUnsorted(appTokens, rows, playedTimeOf, playedInWeekOf);
      multiset(sortBy(u)) == multiset(u)
    ensures var r := GetMostPopularGames(appTokens, rows, playedTimeOf, playedInWeekOf, sortBy);
      && |r| == |appTokens|
      && multiset(r) == multiset(ListedGames(appTokens, rows, playedTimeOf, playedInWeekOf))
  {
    var u := PopularGamesUnsorted(appTokens, rows, playedTimeOf, playedInWeekOf);
    var r := GetMostPopularGames(appTokens, rows, playedTimeOf, playedInWeekOf, sortBy);
    forall i | 0 <= i < |appTokens|
      ensures u[i] == GameOf(appTokens[i], rows, playedTimeOf, playedInWeekOf)
    {
      PopularGamesOwnName(appTokens, rows, playedTimeOf, playedInWeekOf, i);
    }
    assert u == ListedGames(appTokens, rows, playedTimeOf, playedInWeekOf);
    assert |r| == |multiset(r)| == |multiset(u)| == |u|;
  }

  // ---------------------------------------------------------------------------
  // getBestUsers
  // ---------------------------------------------------------------------------

  /** A JavaScript number as the score computation can produce it. */
  datatype JsNumber = Num(n: int) | Undefined | NaN

  /** JavaScript `a + b` on these values: anything plus `undefined` or `NaN` is `NaN`. */
  function JsAdd(a: JsNumber, b: JsNumber): JsNumber {
    if a.Num? && b.Num? then Num(a.n + b.n) else NaN
  }

  /** JavaScript `x > 0`: false for `undefined` and `NaN`. */
  predicate JsPositive(x: JsNumber) {
    x.Num? && x.n > 0
  }

  /** `historyRows.map(row => { if (row.playedTime) return row.scores; })`. */
  function ScoresArray(history: seq<StatisticRow>): seq<JsNumber> {
    seq(|history|, i requires 0 <= i < |history| =>
      if history[i].playedTime != 0 then Num(history[i].scores) else Undefined)
  }

  /** The sum of the numbers in `a`, left to right. */
  ghost function NumSum(a: seq<JsNumber>): int {
    if a == [] then 0 else NumSum(a[..|a| - 1]) + (if a[|a| - 1].Num? then a[|a| - 1].n else 0)
  }

  /** `a.reduce((a, b) => a + b)` with no initial value: folds from the left,
      a one-element array being returned as it is. The result is a number iff
      every element is one, and then it is their sum; a lone `undefined` comes
      back as it is, and any other non-number makes the sum `NaN`. */
  function Reduce(a: seq<JsNumber>): (r: JsNumber)
    requires a != []
    ensures r.Num? <==> forall i :: 0 <= i < |a| ==> a[i].Num?
    ensures r.Num? ==> r.n == NumSum(a)
    ensures r == Undefined <==> a == [Undefined]
    ensures |a| > 1 && !r.Num? ==> r == NaN
  {
    if |a| == 1 then
      assert a[..0] == [];
      a[0]
    else
      assert forall i :: 0 <= i < |a| - 1 ==> a[..|a| - 1][i] == a[i];
      JsAdd(Reduce(a[..|a| - 1]), a[|a| - 1])
  }

  /** Sum of the rows' scores, left to right. */
  function SumScores(history: seq<StatisticRow>): int {
    if history == [] then 0 else SumScores(history[..|history| - 1]) + history[|history| - 1].scores
  }

  lemma {:induction false} ReduceOfScores(history: seq<StatisticRow>)
    requires history != []
    ensures (forall i :: 0 <= i < |history| ==> history[i].playedTime != 0) ==> Reduce(ScoresArray(history)) == Num(SumScores(history))
    ensures (exists i :: 0 <= i < |history| && history[i].playedTime == 0) ==> !Reduce(ScoresArray(history)).Num?
  {
    var a := ScoresArray(history);
    if |history| > 1 {
      var front := history[..|history| - 1];
      ReduceOfScores(front);
      assert a[..|a| - 1] == ScoresArray(front);
      if exists i :: 0 <= i < |history| && history[i].playedTime == 0 {
        var i :| 0 <= i < |history| && history[i].playedTime == 0;
        if i < |history| - 1 {
          assert front[i].playedTime == 0;
        }
      }
    } else {
      assert history[..0] == [];
    }
  }

  /** The score of a user's rows: 0 when the mapped array is empty, the
      reduce of it otherwise. It is 0 without rows, the sum of the scores
      when every row has a non-zero played time, and not a number once any
      row has played time 0. */
  function ScoreOf(history: seq<StatisticRow>): (score: JsNumber)
    ensures history == [] ==> score == Num(0)
    ensures (forall i :: 0 <= i < |history| ==> history[i].playedTime != 0) ==> score == Num(SumScores(history))
    ensures (exists i :: 0 <= i < |history| && history[i].playedTime == 0) ==> !score.Num? && !JsPositive(score)
  {
    var a := ScoresArray(history);
    if a == [] then Num(0)
    else
      ReduceOfScores(history);
      Reduce(a)
  }

  /** The session with played time 0 does not just add nothing: it makes the
      user's score `NaN`, so the user cannot be among the best users. */
  lemma ZeroTimeSessionSpoilsScore()
    ensures ScoreOf([StatisticRow("tok-A", 1, 100, 5, true), StatisticRow("tok-A", 1, 0, 50, false)]) == NaN
    ensures ScoreOf([StatisticRow("tok-A", 1, 0, 50, false)]) == Undefined
  {
    var h := [StatisticRow("tok-A", 1, 100, 5, true), StatisticRow("tok-A", 1, 0, 50, false)];
    assert ScoresArray(h) == [Num(5), Undefined];
    assert ScoresArray(h)[..1] == [Num(5)];
    assert ScoresArray([StatisticRow("tok-A", 1, 0, 50, false)]) == [Undefined];
  }

  datatype BestUser = BestUser(id: int, name: string, playedTime: int, scores: JsNumber)

  /** The record built for one active user: their id and name, the played
      time of their rows, and a score that is 0 without rows, the sum of
      their scores when none of their rows has played time 0, and never
      positive otherwise. */
  function UserStatistic(user: UserRow, rows: seq<StatisticRow>, playedTimeOf: seq<StatisticRow> -> int): (b: BestUser)
    ensures b.id == user.id && b.name == user.name
    ensures b.playedTime == playedTimeOf(RowsOfUser(rows, user.id))
    ensures (forall x :: x in rows ==> x.userId != user.id) ==> b.scores == Num(0)
    ensures (forall x :: x in rows && x.userId == user.id ==> x.playedTime != 0) ==>
      b.scores == Num(SumScores(RowsOfUser(rows, user.id)))
    ensures (exists x :: x in rows && x.userId == user.id && x.playedTime == 0) ==> !JsPositive(b.scores)
  {
    var history := RowsOfUser(rows, user.id);
    assert forall i :: 0 <= i < |history| ==> history[i] in history;
    BestUser(user.id, user.name, playedTimeOf(history), ScoreOf(history))
  }

  /** The records gathered by `Promise.all`, one per user, in user order. */
  function UsersStatistic(users: seq<UserRow>, rows: seq<StatisticRow>, playedTimeOf: seq<StatisticRow> -> int): seq<BestUser> {
    seq(|users|, i requires 0 <= i < |users| => UserStatistic(users[i], rows, playedTimeOf))
  }

  /** `.filter(user => user.scores > 0)`. */
  function PositiveScores(s: seq<BestUser>): (r: seq<BestUser>)
    ensures forall b :: b in r <==> b in s && JsPositive(b.scores)
    ensures |r| <= |s|
  {
    if s == [] then []
    else if JsPositive(s[0].scores) then [s[0]] + PositiveScores(s[1..])
    else PositiveScores(s[1..])
  }

  /** The filter keeps the order it is given: it distributes over concatenation
      and leaves an all-positive list as it is. */
  lemma {:induction false} PositiveScoresKeepsOrder(a: seq<BestUser>, b: seq<BestUser>)
    ensures PositiveScores(a + b) == PositiveScores(a) + PositiveScores(b)
    ensures (forall i :: 0 <= i < |a| ==> JsPositive(a[i].scores)) ==> PositiveScores(a) == a
  {
    if a == [] {
      assert a + b == b;
    } else {
      assert (a + b)[1..] == a[1..] + b;
      PositiveScoresKeepsOrder(a[1..], b);
    }
  }

  /** `getBestUsers`: rejects as soon as a user is inactive; otherwise sorts the
      per-user records with `sortBy` and keeps those with a positive score. */
  function GetBestUsers(users: seq<UserRow>, rows: seq<StatisticRow>, playedTimeOf: seq<StatisticRow> -> int,
                        sortBy: seq<BestUser> -> seq<BestUser>): (r: Settled<seq<BestUser>>)
    ensures r.Rejected? <==> exists i :: 0 <= i < |users| && !users[i].isActive
    ensures r.Rejected? ==> r.reason == InactiveUserReason
    ensures r.Resolved? ==> forall b :: b in r.value ==> JsPositive(b.scores)
  {
    if exists i :: 0 <= i < |users| && !users[i].isActive then Rejected(InactiveUserReason)
    else Resolved(PositiveScores(sortBy(UsersStatistic(users, rows, playedTimeOf))))
  }

  /** The filter keeps each positive record exactly as often as it occurs,
      and drops every other record. */
  lemma {:induction false} PositiveScoresMultiset(s: seq<BestUser>)
    ensures forall b :: multiset(PositiveScores(s))[b] == if JsPositive(b.scores) then multiset(s)[b] else 0
  {
    if s != [] {
      PositiveScoresMultiset(s[1..]);
      assert s == [s[0]] + s[1..];
    }
  }

  /** One inactive user rejects the whole call, whoever the other users are. */
  lemma InactiveUserRejects(before: seq<UserRow>, user: UserRow, after: seq<UserRow>, rows: seq<StatisticRow>,
                            playedTimeOf: seq<StatisticRow> -> int, sortBy: seq<BestUser> -> seq<BestUser>)
    requires !user.isActive
    ensures GetBestUsers(before + [user] + after, rows, playedTimeOf, sortBy) == Rejected(InactiveUserReason)
  {
    assert (before + [user] + after)[|before|] == user;
  }

  /** With every user active the call resolves, and, for any `sortBy` that keeps
      the records, a user is in the result iff their score is a number above 0;
      each positive record is listed exactly as often as it was built, and
      nothing else is listed. */
  lemma BestUsersMembership(users: seq<UserRow>, rows: seq<StatisticRow>, playedTimeOf: seq<StatisticRow> -> int,
                            sortBy: seq<BestUser> -> seq<BestUser>)
    requires forall i :: 0 <= i < |users| ==> users[i].isActive
    requires var s := UsersStatistic(users, rows, playedTimeOf); multiset(sortBy(s)) == multiset(s)
    ensures var r := GetBestUsers(users, rows, playedTimeOf, sortBy);
      && r.Resolved?
      && (forall u :: u in users ==>
            (UserStatistic(u, rows, playedTimeOf) in r.value <==> JsPositive(ScoreOf(RowsOfUser(rows, u.id)))))
      && (forall b :: b in r.value ==> exists i :: 0 <= i < |users| && b == UserStatistic(users[i], rows, playedTimeOf))
      && (forall b :: multiset(r.value)[b] ==
            if JsPositive(b.scores) then multiset(UsersStatistic(users, rows, playedTimeOf))[b] else 0)
  {
    var s := UsersStatistic(users, rows, playedTimeOf);
    var sorted := sortBy(s);
    PositiveScoresMultiset(sorted);
    forall b ensures b in sorted <==> b in s {
      assert b in sorted <==> b in multiset(sorted);
      assert b in s <==> b in multiset(s);
    }
    forall u | u in users
      ensures UserStatistic(u, rows, playedTimeOf) in PositiveScores(sorted) <==> JsPositive(ScoreOf(RowsOfUser(rows, u.id)))
    {
      var i :| 0 <= i < |users| && users[i] == u;
      assert s[i] == UserStatistic(u, rows, playedTimeOf);
    }
  }
}
