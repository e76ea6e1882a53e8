/** The query and update builders of the store (internal/store.go): the sparse
    filter and edit objects, the SELECT text built from a filter together with
    its positional arguments, and the up to three UPDATEs of a game edit run in
    one transaction. The database itself is abstract: each call has an outcome
    that the model takes as given. */
module Store {
  import opened Wrappers
  import opened Models
  import opened Text

  // ---------------------------------------------------------------------------
  // Sparse filters and edits
  // ---------------------------------------------------------------------------

  /** The optional row limit that both filters embed. */
  class Filter {
    var limit: int
    var limitSet: bool

    /** The zero value: no limit. */
    constructor ()
      ensures Limit() == (0, false)
    {
      limit, limitSet := 0, false;
    }

    function Limit(): (int, bool)
      reads this
    {
      (limit, limitSet)
    }

    method SetLimit(n: int)
      modifies this
      ensures Limit() == (n, true)
    {
      limit := n;
      limitSet := true;
    }
  }

  /** What a game filter asks for, with the limit as an option. */
  datatype GameCriteria = GameCriteria(
    ids: seq<int>, clubs: seq<Club>, seasons: seq<Season>, leagues: seq<League>, limit: Option<int>)

  /** A Go `(value, set)` pair as an option. */
  function Given<T>(p: (T, bool)): Option<T>
  {
    if p.1 then Some(p.0) else None
  }

  class GameFilter {
    const filter: Filter
    var ids: seq<int>
    var clubs: seq<Club>
    var seasons: seq<Season>
    var leagues: seq<League>

    /** A composite literal with the given lists and no limit. */
    constructor (ids: seq<int>, clubs: seq<Club>, seasons: seq<Season>, leagues: seq<League>)
      ensures fresh(filter)
      ensures Limit() == (0, false)
      ensures Criteria() == GameCriteria(ids, clubs, seasons, leagues, None)
    {
      filter := new Filter();
      this.ids, this.clubs, this.seasons, this.leagues := ids, clubs, seasons, leagues;
    }

    function Limit(): (int, bool)
      reads this, filter
    {
      filter.Limit()
    }

    function Criteria(): GameCriteria
      reads this, filter
    {
      GameCriteria(ids, clubs, seasons, leagues, Given(Limit()))
    }

    method SetLimit(n: int)
      modifies filter
      ensures Limit() == (n, true)
      ensures Criteria() == old(Criteria()).(limit := Some(n))
    {
      filter.SetLimit(n);
    }
  }

  /** What a season filter asks for. */
  datatype SeasonCriteria = SeasonCriteria(league: Option<League>, club: Option<Club>, limit: Option<int>)

  class SeasonFilter {
    const filter: Filter
    var league: League
    var leagueSet: bool
    var club: Club
    var clubSet: bool

    /** The zero value: nothing selected, no limit. */
    constructor ()
      ensures fresh(filter)
      ensures SelectedLeague() == (ZeroLeague, false) && SelectedClub() == (ZeroClub, false)
      ensures Limit() == (0, false)
      ensures Criteria() == SeasonCriteria(None, None, None)
    {
      filter := new Filter();
      league, leagueSet := ZeroLeague, false;
      club, clubSet := ZeroClub, false;
    }

    function Limit(): (int, bool)
      reads this, filter
    {
      filter.Limit()
    }

    function SelectedLeague(): (League, bool)
      reads this
    {
      (league, leagueSet)
    }

    function SelectedClub(): (Club, bool)
      reads this
    {
      (club, clubSet)
    }

    function Criteria(): SeasonCriteria
      reads this, filter
    {
      SeasonCriteria(
        if leagueSet then Some(league) else None,
        if clubSet then Some(club) else None,
        Given(Limit()))
    }

    method SetLimit(n: int)
      modifies filter
      ensures Limit() == (n, true)
      ensures Criteria() == old(Criteria()).(limit := Some(n))
    {
      filter.SetLimit(n);
    }

    method SetLeague(l: League)
      modifies this
      ensures SelectedLeague() == (l, true)
      ensures SelectedClub() == old(SelectedClub()) && Limit() == old(Limit())
      ensures Criteria() == old(Criteria()).(league := Some(l))
    {
      league := l;
      leagueSet := true;
    }

    method SetClub(c: Club)
      modifies this
      ensures SelectedClub() == (c, true)
      ensures SelectedLeague() == old(SelectedLeague()) && Limit() == old(Limit())
      ensures Criteria() == old(Criteria()).(club := Some(c))
    {
      club := c;
      clubSet := true;
    }
  }

  /** The fields an edit may change, each present or absent. */
  datatype EditPatch = EditPatch(
    date: Option<string>, title: Option<string>, venue: Option<string>,
    homeScore: Option<int>, awayScore: Option<int>)

  class GameEdit {
    var date: string
    var title: string
    var venue: string
    var homeScore: int
    var awayScore: int
    var dateSet: bool
    var titleSet: bool
    var venueSet: bool
    var homeScoreSet: bool
    var awayScoreSet: bool

    /** The zero value: every field unset. */
    constructor ()
      ensures Date() == ("", false) && Title() == ("", false) && Venue() == ("", false)
      ensures HomeScore() == (0, false) && AwayScore() == (0, false)
      ensures Patch() == EditPatch(None, None, None, None, None)
    {
      date, title, venue, homeScore, awayScore := "", "", "", 0, 0;
      dateSet, titleSet, venueSet, homeScoreSet, awayScoreSet := false, false, false, false, false;
    }

    function Date(): (string, bool) reads this { (date, dateSet) }
    function Title(): (string, bool) reads this { (title, titleSet) }
    function Venue(): (string, bool) reads this { (venue, venueSet) }
    function HomeScore(): (int, bool) reads this { (homeScore, homeScoreSet) }
    function AwayScore(): (int, bool) reads this { (awayScore, awayScoreSet) }

    function Patch(): EditPatch
      reads this
    {
      EditPatch(Given(Date()), Given(Title()), Given(Venue()), Given(HomeScore()), Given(AwayScore()))
    }

    method SetDate(d: string)
      modifies this
      ensures Date() == (d, true)
      ensures Title() == old(Title()) && Venue() == old(Venue())
      ensures HomeScore() == old(HomeScore()) && AwayScore() == old(AwayScore())
    {
      date := d;
      dateSet := true;
    }

    method SetTitle(t: string)
      modifies this
      ensures Title() == (t, true)
      ensures Date() == old(Date()) && Venue() == old(Venue())
      ensures HomeScore() == old(HomeScore()) && AwayScore() == old(AwayScore())
    {
      title := t;
      titleSet := true;
    }

    method SetVenue(v: string)
      modifies this
      ensures Venue() == (v, true)
      ensures Date() == old(Date()) && Title() == old(Title())
      ensures HomeScore() == old(HomeScore()) && AwayScore() == old(AwayScore())
    {
      venue := v;
      venueSet := true;
    }

    method SetHomeScore(score: int)
      modifies this
      ensures HomeScore() == (score, true)
      ensures Date() == old(Date()) && Title() == old(Title()) && Venue() == old(Venue())
      ensures AwayScore() == old(AwayScore())
    {
      homeScore := score;
      homeScoreSet := true;
    }

    method SetAwayScore(score: int)
      modifies this
      ensures AwayScore() == (score, true)
      ensures Date() == old(Date()) && Title() == old(Title()) && Venue() == old(Venue())
      ensures HomeScore() == old(HomeScore())
    {
      awayScore := score;
      awayScoreSet := true;
    }
  }

  // ---------------------------------------------------------------------------
  // Placeholders
  // ---------------------------------------------------------------------------

  /** A positional parameter, `$i`. */
  function Placeholder(i: int): string
  {
    "$" + FromInt(i)
  }

  /** The number a placeholder token stands for, if it is one. */
  function PlaceholderNumber(t: string): Option<int>
  {
    if |t| > 0 && t[0] == '$' then ParseDecimal(t[1..]) else None
  }

  lemma PlaceholderRoundTrip(i: int)
    ensures PlaceholderNumber(Placeholder(i)) == Some(i)
    ensures ' ' !in Placeholder(i) && ',' !in Placeholder(i)
  {
    ParseFromInt(i);
    assert Placeholder(i)[1..] == FromInt(i);
  }

  /** The text ordinate(start, n) builds: `$start $(start+1) ... ` */
  function OrdinateText(start: int, n: nat): string
  {
    if n == 0 then "" else OrdinateText(start, n - 1) + (Placeholder(start + n - 1) + " ")
  }

  method Ordinate(start: int, n: nat) returns (s: string)
    ensures s == OrdinateText(start, n)
  {
    s := "";
    for i := start to start + n
      invariant s == OrdinateText(start, i - start)
    {
      s := s + (Placeholder(i) + " ");
    }
  }

  lemma {:induction false} OrdinateFront(start: int, n: nat)
    ensures OrdinateText(start, n + 1) == Placeholder(start) + " " + OrdinateText(start + 1, n)
  {
    if n > 0 {
      OrdinateFront(start, n - 1);
      var head, middle, last := Placeholder(start) + " ", OrdinateText(start + 1, n - 1), Placeholder(start + n) + " ";
      assert OrdinateText(start, n + 1) == OrdinateText(start, n) + last;
      assert OrdinateText(start + 1, n) == middle + last;
      assert head + (middle + last) == (head + middle) + last;
    }
  }

  /** The tokens $start .. $(start + n - 1). */
  function Placeholders(start: int, n: nat): (r: seq<string>)
    ensures |r| == n && forall k :: 0 <= k < n ==> r[k] == Placeholder(start + k)
  {
    seq(n, k => Placeholder(start + k))
  }

  lemma PlaceholdersCons(start: int, n: nat)
    ensures [Placeholder(start)] + Placeholders(start + 1, n) == Placeholders(start, n + 1)
  {
    var a, b := [Placeholder(start)] + Placeholders(start + 1, n), Placeholders(start, n + 1);
    forall k | 0 <= k < n + 1
      ensures a[k] == b[k]
    {
      if k > 0 {
        assert a[k] == Placeholders(start + 1, n)[k - 1] == Placeholder(start + 1 + (k - 1));
      }
    }
  }

  /** The text of ordinate(start, n) is the placeholders $start .. each followed by a space. */
  lemma {:induction false} OrdinateTerminated(start: int, n: nat)
    ensures OrdinateText(start, n) == Terminated(Placeholders(start, n), ' ')
    decreases n
  {
    if n > 0 {
      OrdinateFront(start, n - 1);
      OrdinateTerminated(start + 1, n - 1);
      PlaceholdersCons(start, n - 1);
      var tokens := Placeholders(start, n);
      assert tokens[0] == Placeholder(start) && tokens[1..] == Placeholders(start + 1, n - 1);
    }
  }

  lemma OrdinateSplit(start: int, n: nat)
    ensures Split(OrdinateText(start, n), ' ') == Placeholders(start, n) + [""]
  {
    OrdinateTerminated(start, n);
    forall k | 0 <= k < n
      ensures ' ' !in Placeholders(start, n)[k]
    {
      PlaceholderRoundTrip(start + k);
    }
    SplitTerminated(Placeholders(start, n), ' ');
  }

  /** The text of ordinate(start, n) is exactly n tokens, each followed by a
      space, and the k-th token reads back as placeholder number start + k. */
  lemma OrdinateTokens(start: int, n: nat)
    ensures |Split(OrdinateText(start, n), ' ')| == n + 1
    ensures Split(OrdinateText(start, n), ' ')[n] == ""
    ensures forall k :: 0 <= k < n ==> PlaceholderNumber(Split(OrdinateText(start, n), ' ')[k]) == Some(start + k)
  {
    OrdinateSplit(start, n);
    PlaceholderTokens(Split(OrdinateText(start, n), ' '), start, n);
  }

  lemma PlaceholderTokens(tokens: seq<string>, start: int, n: nat)
    requires tokens == Placeholders(start, n) + [""]
    ensures |tokens| == n + 1 && tokens[n] == ""
    ensures forall k :: 0 <= k < n ==> PlaceholderNumber(tokens[k]) == Some(start + k)
  {
    forall k | 0 <= k < n
      ensures PlaceholderNumber(tokens[k]) == Some(start + k)
    {
      assert tokens[k] == Placeholder(start + k);
      PlaceholderRoundTrip(start + k);
    }
  }

  // ---------------------------------------------------------------------------
  // SELECT queries
  // ---------------------------------------------------------------------------

  /** A positional argument passed alongside the query text. */
  datatype Arg = IntArg(n: int) | TextArg(s: string)

  /** The conditions a filter can contribute to a WHERE clause. */
  datatype Kind =
    | GameIdIn        // the game's id is one of the arguments
    | ClubPlayedIn    // one of the argument clubs played in the game
    | SeasonIdIn      // the game's season is one of the arguments
    | LeagueCodeIn    // the game's league code is one of the arguments
    | LeagueCodeIs    // the season's league code is the argument
    | ClubSeasonIs    // the argument club took part in the season

  /** A condition over the placeholders first .. first + count - 1. */
  datatype Clause = Clause(kind: Kind, first: int, count: nat)

  /** A SELECT: fixed base text, conjoined conditions, fixed ordering, optional
      LIMIT, and the arguments the placeholders refer to. */
  datatype Query = Query(base: string, where: seq<Clause>, order: string, limit: Option<int>, args: seq<Arg>)

  const GameBase := "SELECT <game columns> FROM game_view"
  const GameOrder := "game_date desc, game_id desc"
  const SeasonBase := "SELECT <season columns> FROM season NATURAL JOIN league NATURAL JOIN sport"
  const SeasonOrder := "start_year asc, season_id desc"

  /** The text of a condition before its placeholders. */
  function Opening(kind: Kind): string
  {
    match kind
    case GameIdIn => "game_id in ("
    case ClubPlayedIn => "game_id in (select game_id from game_club where club_id in ("
    case SeasonIdIn => "season_id in ("
    case LeagueCodeIn => "league_code in ("
    case LeagueCodeIs => "league_code = "
    case ClubSeasonIs => "season_id in (select season_id from season_club where club_id = "
  }

  /** The text of a condition after its placeholders. */
  function Closing(kind: Kind): string
  {
    match kind
    case ClubPlayedIn => "))"
    case LeagueCodeIs => ""
    case _ => ")"
  }

  /** A list condition lists its placeholders with ordinate; a single-value
      condition has one placeholder. */
  function ClauseText(c: Clause): string
  {
    if c.kind == LeagueCodeIs || c.kind == ClubSeasonIs then Opening(c.kind) + Placeholder(c.first) + Closing(c.kind)
    else Opening(c.kind) + OrdinateText(c.first, c.count) + Closing(c.kind)
  }

  function ClauseTexts(cs: seq<Clause>): (r: seq<string>)
    ensures |r| == |cs| && forall i :: 0 <= i < |cs| ==> r[i] == ClauseText(cs[i])
  {
    seq(|cs|, i requires 0 <= i < |cs| => ClauseText(cs[i]))
  }

  function LimitText(limit: Option<int>): string
  {
    match limit
    case None => ""
    case Some(n) => " LIMIT " + FromInt(n)
  }

  function WhereText(cs: seq<Clause>): string
  {
    if cs == [] then "" else " WHERE " + Join(ClauseTexts(cs), " AND ")
  }

  /** The query text handed to the database. */
  function Render(q: Query): string
  {
    q.base + WhereText(q.where) + OrderText(q.order) + LimitText(q.limit)
  }

  function OrderText(order: string): string
  {
    " ORDER BY " + order
  }

  /** The text always ends with the ordering, then the LIMIT exactly when one is set. */
  lemma RenderEnds(q: Query)
    ensures q.limit.None? ==> EndsWith(Render(q), " ORDER BY " + q.order)
    ensures q.limit.Some? ==> EndsWith(Render(q), " ORDER BY " + q.order + " LIMIT " + FromInt(q.limit.value))
  {
    var head, tail := q.base + WhereText(q.where), OrderText(q.order) + LimitText(q.limit);
    assert Render(q) == head + tail;
    EndsWithAppend(head, tail);
    if q.limit.None? {
      assert tail == " ORDER BY " + q.order;
    } else {
      assert tail == " ORDER BY " + q.order + " LIMIT " + FromInt(q.limit.value);
    }
  }

  lemma EndsWithAppend(a: string, b: string)
    ensures EndsWith(a + b, b)
  {
    assert (a + b)[|a|..] == b;
  }

  predicate EndsWith(s: string, suffix: string)
  {
    |suffix| <= |s| && s[|s| - |suffix|..] == suffix
  }

  /** The placeholder numbers a clause uses, in order. */
  function Range(first: int, count: nat): (r: seq<int>)
    ensures |r| == count && forall k :: 0 <= k < count ==> r[k] == first + k
  {
    seq(count, k => first + k)
  }

  /** The placeholder numbers of all clauses, in the order they appear in the text. */
  function Numbers(cs: seq<Clause>): seq<int>
  {
    if cs == [] then [] else Numbers(cs[..|cs| - 1]) + Range(cs[|cs| - 1].first, cs[|cs| - 1].count)
  }

  /** The placeholders are $1 .. $n, each once and in text order, for n arguments. */
  predicate Numbered(cs: seq<Clause>, args: seq<Arg>)
  {
    Numbers(cs) == Range(1, |args|)
  }

  /** Clause j has kind intended[j].0 and its placeholders pick exactly the
      arguments intended[j].1. */
  predicate Binds(cs: seq<Clause>, args: seq<Arg>, intended: seq<(Kind, seq<Arg>)>)
  {
    |cs| == |intended| &&
    forall j :: 0 <= j < |cs| ==>
      cs[j].kind == intended[j].0 && 1 <= cs[j].first && cs[j].first - 1 + cs[j].count <= |args| &&
      args[cs[j].first - 1 .. cs[j].first - 1 + cs[j].count] == intended[j].1
  }

  /** One criterion as meant: a condition with its values, absent when it has none. */
  function Criterion(kind: Kind, vals: seq<Arg>): seq<(Kind, seq<Arg>)>
  {
    if vals == [] then [] else [(kind, vals)]
  }

  /** Adds one criterion: a clause whose placeholders continue the numbering,
      and its values at the end of the arguments. */
  function Extend(p: (seq<Clause>, seq<Arg>), kind: Kind, vals: seq<Arg>): (seq<Clause>, seq<Arg>)
  {
    if vals == [] then p else (p.0 + [Clause(kind, |p.1| + 1, |vals|)], p.1 + vals)
  }

  lemma {:induction false} RangeAppend(a: nat, b: nat)
    ensures Range(1, a) + Range(a + 1, b) == Range(1, a + b)
  {
  }

  lemma ExtendNumbered(p: (seq<Clause>, seq<Arg>), kind: Kind, vals: seq<Arg>)
    requires Numbered(p.0, p.1)
    ensures Numbered(Extend(p, kind, vals).0, Extend(p, kind, vals).1)
  {
    var q := Extend(p, kind, vals);
    if vals != [] {
      assert q.0[..|q.0| - 1] == p.0;
      assert Numbers(q.0) == Range(1, |p.1|) + Range(|p.1| + 1, |vals|);
      RangeAppend(|p.1|, |vals|);
    } else {
      assert q.0 == p.0 && q.1 == p.1;
    }
  }

  lemma ExtendBinds(p: (seq<Clause>, seq<Arg>), kind: Kind, vals: seq<Arg>, intended: seq<(Kind, seq<Arg>)>)
    requires Binds(p.0, p.1, intended)
    ensures Binds(Extend(p, kind, vals).0, Extend(p, kind, vals).1, intended + Criterion(kind, vals))
  {
    var q := Extend(p, kind, vals);
    var i := intended + Criterion(kind, vals);
    if vals != [] {
      forall j | 0 <= j < |q.0|
        ensures q.0[j].kind == i[j].0 && 1 <= q.0[j].first && q.0[j].first - 1 + q.0[j].count <= |q.1|
        ensures q.1[q.0[j].first - 1 .. q.0[j].first - 1 + q.0[j].count] == i[j].1
      {
        if j < |p.0| {
          var lo, hi := p.0[j].first - 1, p.0[j].first - 1 + p.0[j].count;
          assert q.0[j] == p.0[j] && i[j] == intended[j];
          assert q.1[lo..hi] == p.1[lo..hi];
        } else {
          assert q.1[|p.1|..|p.1| + |vals|] == vals;
        }
      }
    } else {
      assert q.0 == p.0 && q.1 == p.1 && i == intended;
    }
  }

  lemma ExtendKeepsStep(p: (seq<Clause>, seq<Arg>), kind: Kind, vals: seq<Arg>, intended: seq<(Kind, seq<Arg>)>)
    requires Numbered(p.0, p.1) && Binds(p.0, p.1, intended)
    ensures Numbered(Extend(p, kind, vals).0, Extend(p, kind, vals).1)
    ensures Binds(Extend(p, kind, vals).0, Extend(p, kind, vals).1, intended + Criterion(kind, vals))
  {
    ExtendNumbered(p, kind, vals);
    ExtendBinds(p, kind, vals, intended);
  }

  function IdArgs(ids: seq<int>): (r: seq<Arg>)
    ensures |r| == |ids| && forall k :: 0 <= k < |ids| ==> r[k] == IntArg(ids[k])
  {
    seq(|ids|, k requires 0 <= k < |ids| => IntArg(ids[k]))
  }

  function ClubArgs(clubs: seq<Club>): (r: seq<Arg>)
    ensures |r| == |clubs| && forall k :: 0 <= k < |clubs| ==> r[k] == IntArg(clubs[k].id)
  {
    seq(|clubs|, k requires 0 <= k < |clubs| => IntArg(clubs[k].id))
  }

  function SeasonArgs(seasons: seq<Season>): (r: seq<Arg>)
    ensures |r| == |seasons| && forall k :: 0 <= k < |seasons| ==> r[k] == IntArg(seasons[k].id)
  {
    seq(|seasons|, k requires 0 <= k < |seasons| => IntArg(seasons[k].id))
  }

  /** League codes are passed upper-cased. */
  function LeagueArgs(leagues: seq<League>): (r: seq<Arg>)
    ensures |r| == |leagues| && forall k :: 0 <= k < |leagues| ==> r[k] == TextArg(ToUpper(leagues[k].code))
  {
    seq(|leagues|, k requires 0 <= k < |leagues| => TextArg(ToUpper(leagues[k].code)))
  }

  /** The query gameQuery builds for the given criteria. */
  function GamePlan(c: GameCriteria): Query
  {
    var p1 := Extend(([], []), GameIdIn, IdArgs(c.ids));
    var p2 := Extend(p1, ClubPlayedIn, ClubArgs(c.clubs));
    var p3 := Extend(p2, SeasonIdIn, SeasonArgs(c.seasons));
    var p4 := Extend(p3, LeagueCodeIn, LeagueArgs(c.leagues));
    Query(GameBase, p4.0, GameOrder, c.limit, p4.1)
  }

  /** What each criterion of a game filter is meant to contribute, in the fixed
      order ids, clubs, seasons, leagues. */
  function GameIntended(c: GameCriteria): seq<(Kind, seq<Arg>)>
  {
    Criterion(GameIdIn, IdArgs(c.ids)) + Criterion(ClubPlayedIn, ClubArgs(c.clubs))
    + Criterion(SeasonIdIn, SeasonArgs(c.seasons)) + Criterion(LeagueCodeIn, LeagueArgs(c.leagues))
  }

  /** The text and the arguments of a game query stay in step: the placeholders
      are $1 .. $n for the n arguments, and each clause's placeholders pick
      exactly the values of its criterion. */
  lemma GamePlanMeaning(c: GameCriteria)
    ensures var q := GamePlan(c);
      && Numbered(q.where, q.args)
      && Binds(q.where, q.args, GameIntended(c))
  {
    var p0: (seq<Clause>, seq<Arg>) := ([], []);
    assert Numbered(p0.0, p0.1) && Binds(p0.0, p0.1, []);
    var p1 := Extend(p0, GameIdIn, IdArgs(c.ids));
    ExtendKeepsStep(p0, GameIdIn, IdArgs(c.ids), []);
    var i1 := Criterion(GameIdIn, IdArgs(c.ids));
    assert [] + i1 == i1;
    var p2 := Extend(p1, ClubPlayedIn, ClubArgs(c.clubs));
    ExtendKeepsStep(p1, ClubPlayedIn, ClubArgs(c.clubs), i1);
    var i2 := i1 + Criterion(ClubPlayedIn, ClubArgs(c.clubs));
    var p3 := Extend(p2, SeasonIdIn, SeasonArgs(c.seasons));
    ExtendKeepsStep(p2, SeasonIdIn, SeasonArgs(c.seasons), i2);
    var i3 := i2 + Criterion(SeasonIdIn, SeasonArgs(c.seasons));
    ExtendKeepsStep(p3, LeagueCodeIn, LeagueArgs(c.leagues), i3);
  }

  /** League codes are compared upper-cased: two game filters whose league codes
      differ only in ASCII letter case build the same query. */
  lemma GamePlanIgnoresLeagueCase(c: GameCriteria, d: GameCriteria)
    requires c.(leagues := d.leagues) == d
    requires |c.leagues| == |d.leagues|
    requires forall k :: 0 <= k < |c.leagues| ==> ToUpper(c.leagues[k].code) == ToUpper(d.leagues[k].code)
    ensures GamePlan(c) == GamePlan(d)
  {
    assert LeagueArgs(c.leagues) == LeagueArgs(d.leagues);
  }

  function LeagueArg(league: Option<League>): seq<Arg>
  {
    match league
    case None => []
    case Some(l) => [TextArg(l.code)]
  }

  function ClubArg(club: Option<Club>): seq<Arg>
  {
    match club
    case None => []
    case Some(cl) => [IntArg(cl.id)]
  }

  /** The query seasonQuery builds for the given criteria. */
  function SeasonPlan(c: SeasonCriteria): Query
  {
    var p1 := Extend(([], []), LeagueCodeIs, LeagueArg(c.league));
    var p2 := Extend(p1, ClubSeasonIs, ClubArg(c.club));
    Query(SeasonBase, p2.0, SeasonOrder, c.limit, p2.1)
  }

  /** The placeholders of a season query are $1 .. $n for its n arguments, and
      the league clause picks the league code, the club clause the club id. */
  lemma SeasonPlanMeaning(c: SeasonCriteria)
    ensures var q := SeasonPlan(c);
      && Numbered(q.where, q.args)
      && Binds(q.where, q.args, Criterion(LeagueCodeIs, LeagueArg(c.league)) + Criterion(ClubSeasonIs, ClubArg(c.club)))
  {
    var p0: (seq<Clause>, seq<Arg>) := ([], []);
    assert Numbered(p0.0, p0.1) && Binds(p0.0, p0.1, []);
    var i1 := Criterion(LeagueCodeIs, LeagueArg(c.league));
    ExtendKeepsStep(p0, LeagueCodeIs, LeagueArg(c.league), []);
    assert [] + i1 == i1;
    var p1 := Extend(p0, LeagueCodeIs, LeagueArg(c.league));
    ExtendKeepsStep(p1, ClubSeasonIs, ClubArg(c.club), i1);
  }

  /** A season query tests the league before the club, passes the league code
      as given (not upper-cased), and has a WHERE part exactly when something
      is selected. */
  lemma SeasonPlanShape(c: SeasonCriteria)
    ensures var q := SeasonPlan(c);
      && q.args == LeagueArg(c.league) + ClubArg(c.club)
      && |q.args| == (if c.league.Some? then 1 else 0) + (if c.club.Some? then 1 else 0)
      && (c.league.Some? ==> q.args[0] == TextArg(c.league.value.code))
      && (q.where == [] <==> c.league.None? && c.club.None?)
      && q.base == SeasonBase && q.order == SeasonOrder && q.limit == c.limit
  {
  }

  /** The WHERE list and the next placeholder number that the builders keep
      alongside the clauses and arguments added so far. */
  predicate InStep(p: (seq<Clause>, seq<Arg>), where: seq<string>, arg: int)
  {
    where == ClauseTexts(p.0) && arg == |p.1| + 1 && (p.0 == [] <==> p.1 == [])
  }

  /** Adding a criterion appends its clause's text exactly when it has values,
      numbered from the next free placeholder, and moves that number on by the
      count of its values. */
  lemma ExtendInStep(p: (seq<Clause>, seq<Arg>), kind: Kind, vals: seq<Arg>,
                     where: seq<string>, arg: int, where': seq<string>, arg': int)
    requires InStep(p, where, arg)
    requires vals == [] ==> where' == where && arg' == arg
    requires vals != [] ==> where' == where + [ClauseText(Clause(kind, arg, |vals|))] && arg' == arg + |vals|
    ensures InStep(Extend(p, kind, vals), where', arg')
  {
    var q := Extend(p, kind, vals);
    if vals == [] {
      assert q == p;
    } else {
      var clause := Clause(kind, |p.1| + 1, |vals|);
      assert q == (p.0 + [clause], p.1 + vals);
      ClauseTextsSnoc(p.0, clause);
      assert where' == ClauseTexts(q.0) && |q.1| + 1 == arg';
      assert q.0 != [] && q.1 != [];
    }
  }

  lemma ClauseTextsSnoc(cs: seq<Clause>, c: Clause)
    ensures ClauseTexts(cs + [c]) == ClauseTexts(cs) + [ClauseText(c)]
  {
    var l, r := ClauseTexts(cs + [c]), ClauseTexts(cs) + [ClauseText(c)];
    forall i | 0 <= i < |l|
      ensures l[i] == r[i]
    {
      if i < |cs| {
        assert (cs + [c])[i] == cs[i];
      }
    }
  }

  /** The text the builders assemble from the pieces is the rendering of the plan. */
  lemma RenderBuilt(plan: Query, where: seq<string>, limited: bool, lim: int)
    requires where == ClauseTexts(plan.where)
    requires plan.limit == Given((lim, limited))
    ensures Render(plan)
      == (if plan.where == [] then plan.base else plan.base + (" WHERE " + Join(where, " AND ")))
         + OrderText(plan.order) + (if limited then " LIMIT " + FromInt(lim) else "")
  {
    if plan.where == [] {
      assert plan.base + WhereText(plan.where) == plan.base;
    }
    if !limited {
      var head := plan.base + WhereText(plan.where) + OrderText(plan.order);
      assert head + LimitText(plan.limit) == head;
    }
  }

  lemma IdArgsSnoc(ids: seq<int>, i: nat)
    requires i < |ids|
    ensures IdArgs(ids[..i + 1]) == IdArgs(ids[..i]) + [IntArg(ids[i])]
  {
  }

  lemma ClubArgsSnoc(clubs: seq<Club>, i: nat)
    requires i < |clubs|
    ensures ClubArgs(clubs[..i + 1]) == ClubArgs(clubs[..i]) + [IntArg(clubs[i].id)]
  {
  }

  lemma SeasonArgsSnoc(seasons: seq<Season>, i: nat)
    requires i < |seasons|
    ensures SeasonArgs(seasons[..i + 1]) == SeasonArgs(seasons[..i]) + [IntArg(seasons[i].id)]
  {
  }

  lemma LeagueArgsSnoc(leagues: seq<League>, i: nat)
    requires i < |leagues|
    ensures LeagueArgs(leagues[..i + 1]) == LeagueArgs(leagues[..i]) + [TextArg(ToUpper(leagues[i].code))]
  {
  }

  /** The arguments of a game query are those of its criteria, concatenated;
      it has a WHERE part exactly when some criterion is given, and its base
      text, ordering and limit do not depend on the criteria. */
  lemma GamePlanShape(c: GameCriteria)
    ensures var q := GamePlan(c);
      && q.args == IdArgs(c.ids) + ClubArgs(c.clubs) + SeasonArgs(c.seasons) + LeagueArgs(c.leagues)
      && |q.args| == |c.ids| + |c.clubs| + |c.seasons| + |c.leagues|
      && (q.where == [] <==> c.ids == [] && c.clubs == [] && c.seasons == [] && c.leagues == [])
      && q.base == GameBase && q.order == GameOrder && q.limit == c.limit
  {
    var p1 := Extend(([], []), GameIdIn, IdArgs(c.ids));
    var p2 := Extend(p1, ClubPlayedIn, ClubArgs(c.clubs));
    var p3 := Extend(p2, SeasonIdIn, SeasonArgs(c.seasons));
    ExtendShape(([], []), GameIdIn, IdArgs(c.ids));
    ExtendShape(p1, ClubPlayedIn, ClubArgs(c.clubs));
    ExtendShape(p2, SeasonIdIn, SeasonArgs(c.seasons));
    ExtendShape(p3, LeagueCodeIn, LeagueArgs(c.leagues));
    assert [] + IdArgs(c.ids) == IdArgs(c.ids);
  }

  /** Extending appends the values to the arguments, and leaves no clauses
      only when there were none and no values came. */
  lemma ExtendShape(p: (seq<Clause>, seq<Arg>), kind: Kind, vals: seq<Arg>)
    ensures Extend(p, kind, vals).1 == p.1 + vals
    ensures Extend(p, kind, vals).0 == [] <==> p.0 == [] && vals == []
  {
    if vals == [] {
      assert p.1 + vals == p.1;
    }
  }

  /** One filter block of gameQuery: a non-empty list adds a condition over
      the next placeholders and moves the placeholder counter past them. */
  method AddListCondition(ghost p: (seq<Clause>, seq<Arg>), where: seq<string>, arg: int,
                          kind: Kind, ghost vals: seq<Arg>, n: nat)
    returns (where': seq<string>, arg': int)
    requires InStep(p, where, arg) && n == |vals|
    requires kind in {GameIdIn, ClubPlayedIn, SeasonIdIn, LeagueCodeIn}
    ensures InStep(Extend(p, kind, vals), where', arg')
  {
    where', arg' := where, arg;
    if n > 0 {
      var o := Ordinate(arg, n);
      where' := where + [Opening(kind) + o + Closing(kind)];
      arg' := arg + n;
    }
    ExtendInStep(p, kind, vals, where, arg, where', arg');
  }

  /** gameQuery: the query text and its argument list for a game filter. The
      clauses and their numbering are built first; the arguments are collected
      afterwards by four separate loops. */
  method GameQuery(gf: GameFilter) returns (q: string, args: seq<Arg>)
    ensures q == Render(GamePlan(gf.Criteria()))
    ensures args == GamePlan(gf.Criteria()).args
  {
    ghost var c := gf.Criteria();
    ghost var p: (seq<Clause>, seq<Arg>) := ([], []);
    var where: seq<string> := [];
    var arg := 1;

    where, arg := AddListCondition(p, where, arg, GameIdIn, IdArgs(gf.ids), |gf.ids|);
    p := Extend(p, GameIdIn, IdArgs(gf.ids));
    where, arg := AddListCondition(p, where, arg, ClubPlayedIn, ClubArgs(gf.clubs), |gf.clubs|);
    p := Extend(p, ClubPlayedIn, ClubArgs(gf.clubs));
    where, arg := AddListCondition(p, where, arg, SeasonIdIn, SeasonArgs(gf.seasons), |gf.seasons|);
    p := Extend(p, SeasonIdIn, SeasonArgs(gf.seasons));
    where, arg := AddListCondition(p, where, arg, LeagueCodeIn, LeagueArgs(gf.leagues), |gf.leagues|);
    p := Extend(p, LeagueCodeIn, LeagueArgs(gf.leagues));
    ghost var plan := GamePlan(c);
    assert p == (plan.where, plan.args);

    q := GameBase;
    if arg > 1 {
      q := q + (" WHERE " + Join(where, " AND "));
    }
    q := q + OrderText(GameOrder);
    var (lim, limited) := gf.Limit();
    if limited {
      q := q + (" LIMIT " + FromInt(lim));
    }
    RenderBuilt(plan, where, limited, lim);

    args := GameArgs(gf);
    GamePlanShape(c);
  }

  /** The second half of gameQuery: the arguments of all criteria, in the order
      their placeholders appear in the text. */
  method GameArgs(gf: GameFilter) returns (args: seq<Arg>)
    ensures args == IdArgs(gf.ids) + ClubArgs(gf.clubs) + SeasonArgs(gf.seasons) + LeagueArgs(gf.leagues)
  {
    args := [];
    for i := 0 to |gf.ids|
      invariant args == IdArgs(gf.ids[..i])
    {
      IdArgsSnoc(gf.ids, i);
      args := args + [IntArg(gf.ids[i])];
    }
    assert gf.ids[..|gf.ids|] == gf.ids;
    ghost var done := args;
    for i := 0 to |gf.clubs|
      invariant args == done + ClubArgs(gf.clubs[..i])
    {
      ClubArgsSnoc(gf.clubs, i);
      args := args + [IntArg(gf.clubs[i].id)];
    }
    assert gf.clubs[..|gf.clubs|] == gf.clubs;
    done := args;
    for i := 0 to |gf.seasons|
      invariant args == done + SeasonArgs(gf.seasons[..i])
    {
      SeasonArgsSnoc(gf.seasons, i);
      args := args + [IntArg(gf.seasons[i].id)];
    }
    assert gf.seasons[..|gf.seasons|] == gf.seasons;
    done := args;
    for i := 0 to |gf.leagues|
      invariant args == done + LeagueArgs(gf.leagues[..i])
    {
      LeagueArgsSnoc(gf.leagues, i);
      args := args + [TextArg(ToUpper(gf.leagues[i].code))];
    }
    assert gf.leagues[..|gf.leagues|] == gf.leagues;
  }

  /** seasonQuery: the query text and its argument list for a season filter. */
  method SeasonQuery(sf: SeasonFilter) returns (q: string, args: seq<Arg>)
    ensures q == Render(SeasonPlan(sf.Criteria()))
    ensures args == SeasonPlan(sf.Criteria()).args
  {
    ghost var c := sf.Criteria();
    ghost var p: (seq<Clause>, seq<Arg>) := ([], []);
    var where: seq<string> := [];
    args := [];
    var arg := 1;
    ghost var where0, arg0 := where, arg;

    var (league, leagueSet) := sf.SelectedLeague();
    if leagueSet {
      where := where + [Opening(LeagueCodeIs) + Placeholder(arg) + Closing(LeagueCodeIs)];
      args := args + [TextArg(league.code)];
      arg := arg + 1;
    }
    ExtendInStep(p, LeagueCodeIs, LeagueArg(c.league), where0, arg0, where, arg);
    p := Extend(p, LeagueCodeIs, LeagueArg(c.league));
    assert args == p.1;
    where0, arg0 := where, arg;

    var (club, clubSet) := sf.SelectedClub();
    if clubSet {
      where := where + [Opening(ClubSeasonIs) + Placeholder(arg) + Closing(ClubSeasonIs)];
      args := args + [IntArg(club.id)];
      arg := arg + 1;
    }
    ExtendInStep(p, ClubSeasonIs, ClubArg(c.club), where0, arg0, where, arg);
    p := Extend(p, ClubSeasonIs, ClubArg(c.club));
    ghost var plan := SeasonPlan(c);
    assert p == (plan.where, plan.args);

    q := SeasonBase;
    if arg > 1 {
      q := q + (" WHERE " + Join(where, " AND "));
    }
    q := q + OrderText(SeasonOrder);
    var (lim, limited) := sf.Limit();
    if limited {
      q := q + (" LIMIT " + FromInt(lim));
    }
    RenderBuilt(plan, where, limited, lim);
  }

  // ---------------------------------------------------------------------------
  // Game edits
  // ---------------------------------------------------------------------------

  /** The columns of the game row an edit may set, in the order editGame tests them. */
  datatype Column = GameDate | GameTitle | GameVenue

  function ColumnName(c: Column): string
  {
    match c
    case GameDate => "game_date"
    case GameTitle => "title"
    case GameVenue => "venue"
  }

  /** `column = $at` */
  datatype Assignment = Assignment(column: Column, at: int)

  /** The UPDATEs editGame may run, with their arguments. */
  datatype Update =
    | GameUpdate(sets: seq<Assignment>, idAt: int, args: seq<Arg>)  // the game row, keyed by $idAt
    | ScoreUpdate(args: seq<Arg>)                                    // one club's score: $1 score, $2 game, $3 club

  /** A statement as handed to the database: text and arguments. */
  datatype Statement = Statement(text: string, args: seq<Arg>)

  function AssignmentText(a: Assignment): string
  {
    ColumnName(a.column) + " = " + Placeholder(a.at)
  }

  function AssignmentTexts(sets: seq<Assignment>): (r: seq<string>)
    ensures |r| == |sets| && forall i :: 0 <= i < |sets| ==> r[i] == AssignmentText(sets[i])
  {
    seq(|sets|, i requires 0 <= i < |sets| => AssignmentText(sets[i]))
  }

  const GameUpdateHead := "UPDATE game SET "
  const GameUpdateKey := " WHERE game_id = "
  const ScoreUpdateText := "UPDATE game_club SET score = $1 WHERE game_id = $2 and club_id = $3"

  function UpdateText(u: Update): string
  {
    match u
    case GameUpdate(sets, idAt, _) => GameUpdateHead + Join(AssignmentTexts(sets), ", ") + GameUpdateKey + Placeholder(idAt)
    case ScoreUpdate(_) => ScoreUpdateText
  }

  function ToStatement(u: Update): Statement
  {
    Statement(UpdateText(u), u.args)
  }

  /** The value an edit gives a game column, if it sets it. */
  function ColumnValue(patch: EditPatch, c: Column): Option<string>
  {
    match c
    case GameDate => patch.date
    case GameTitle => patch.title
    case GameVenue => patch.venue
  }

  /** The columns an edit sets, in the fixed order date, title, venue. */
  function SetColumns(patch: EditPatch): seq<Column>
  {
    (if patch.date.Some? then [GameDate] else [])
    + (if patch.title.Some? then [GameTitle] else [])
    + (if patch.venue.Some? then [GameVenue] else [])
  }

  function Columns(sets: seq<Assignment>): (r: seq<Column>)
    ensures |r| == |sets| && forall i :: 0 <= i < |sets| ==> r[i] == sets[i].column
  {
    seq(|sets|, i requires 0 <= i < |sets| => sets[i].column)
  }

  /** Adds `column = $next` when the edit sets the column, and its value at the
      end of the arguments. */
  function Assign(p: (seq<Assignment>, seq<Arg>), c: Column, v: Option<string>): (seq<Assignment>, seq<Arg>)
  {
    match v
    case None => p
    case Some(x) => (p.0 + [Assignment(c, |p.1| + 1)], p.1 + [TextArg(x)])
  }

  /** The update of the game row: present when the edit sets the date, the title
      or the venue; the game id is the last argument. */
  function GamePart(game: Game, patch: EditPatch): Option<Update>
  {
    var p := GameAssignments(patch);
    if p.0 == [] then None else Some(GameUpdate(p.0, |p.1| + 1, p.1 + [IntArg(game.id)]))
  }

  /** The assignments of the date, title and venue blocks, with their values. */
  function GameAssignments(patch: EditPatch): (seq<Assignment>, seq<Arg>)
  {
    Assign(Assign(Assign(([], []), GameDate, patch.date), GameTitle, patch.title), GameVenue, patch.venue)
  }

  /** The update of one club's score in the game. */
  function ScorePart(game: Game, score: Option<int>, club: Club): Option<Update>
  {
    match score
    case None => None
    case Some(s) => Some(ScoreUpdate([IntArg(s), IntArg(game.id), IntArg(club.id)]))
  }

  function Present<T>(o: Option<T>): seq<T>
  {
    match o
    case None => []
    case Some(x) => [x]
  }

  /** The updates an edit of a game runs, in order: game row, home score, away score. */
  function EditPlan(game: Game, patch: EditPatch): seq<Update>
  {
    Present(GamePart(game, patch)) + Present(ScorePart(game, patch.homeScore, game.home))
    + Present(ScorePart(game, patch.awayScore, game.away))
  }

  function EditStatements(game: Game, patch: EditPatch): (r: seq<Statement>)
    ensures |r| == |EditPlan(game, patch)|
    ensures forall i :: 0 <= i < |r| ==> r[i] == ToStatement(EditPlan(game, patch)[i])
  {
    var plan := EditPlan(game, patch);
    seq(|plan|, i requires 0 <= i < |plan| => ToStatement(plan[i]))
  }

  /** Each set column is assigned once, in the fixed order, to the placeholder
      that carries its value; the game id follows as the last argument. */
  lemma GamePartMeaning(game: Game, patch: EditPatch)
    ensures GamePart(game, patch).Some? <==> patch.date.Some? || patch.title.Some? || patch.venue.Some?
    ensures GamePart(game, patch).Some? ==>
      var u := GamePart(game, patch).value;
      && u.GameUpdate?
      && Columns(u.sets) == SetColumns(patch)
      && u.idAt == |u.sets| + 1 == |u.args|
      && u.args[u.idAt - 1] == IntArg(game.id)
      && forall k :: 0 <= k < |u.sets| ==>
           u.sets[k].at == k + 1 && ColumnValue(patch, u.sets[k].column).Some?
           && u.args[k] == TextArg(ColumnValue(patch, u.sets[k].column).value)
  {
    GameAssignmentsAssigned(patch);
    SetColumnsEmpty(patch);
    var p := GameAssignments(patch);
    if p.0 != [] {
      AssignedUpdate(p, patch, SetColumns(patch), game.id);
    }
  }

  lemma SetColumnsEmpty(patch: EditPatch)
    ensures SetColumns(patch) == [] <==> patch.date.None? && patch.title.None? && patch.venue.None?
  {
  }

  /** The update made from the assignments: the id placeholder follows the
      last value. */
  lemma AssignedUpdate(p: (seq<Assignment>, seq<Arg>), patch: EditPatch, cols: seq<Column>, id: int)
    requires Assigned(p, patch, cols)
    ensures var u := GameUpdate(p.0, |p.1| + 1, p.1 + [IntArg(id)]);
      && Columns(u.sets) == cols
      && u.idAt == |u.sets| + 1 == |u.args|
      && u.args[u.idAt - 1] == IntArg(id)
      && forall k :: 0 <= k < |u.sets| ==>
           u.sets[k].at == k + 1 && ColumnValue(patch, u.sets[k].column).Some?
           && u.args[k] == TextArg(ColumnValue(patch, u.sets[k].column).value)
  {
  }

  lemma GameAssignmentsAssigned(patch: EditPatch)
    ensures Assigned(GameAssignments(patch), patch, SetColumns(patch))
  {
    var p0: (seq<Assignment>, seq<Arg>) := ([], []);
    var p1 := Assign(p0, GameDate, patch.date);
    AssignKeeps(p0, GameDate, patch, []);
    var p2 := Assign(p1, GameTitle, patch.title);
    AssignKeeps(p1, GameTitle, patch, if patch.date.Some? then [GameDate] else []);
    AssignKeeps(p2, GameVenue, patch,
      (if patch.date.Some? then [GameDate] else []) + (if patch.title.Some? then [GameTitle] else []));
  }

  /** The assignments built so far set the columns cols, numbered 1.., each
      bound to its value. */
  predicate Assigned(p: (seq<Assignment>, seq<Arg>), patch: EditPatch, cols: seq<Column>)
  {
    && Columns(p.0) == cols
    && |p.1| == |p.0|
    && forall k :: 0 <= k < |p.0| ==>
         p.0[k].at == k + 1 && ColumnValue(patch, p.0[k].column).Some?
         && p.1[k] == TextArg(ColumnValue(patch, p.0[k].column).value)
  }

  lemma AssignKeeps(p: (seq<Assignment>, seq<Arg>), c: Column, patch: EditPatch, cols: seq<Column>)
    requires Assigned(p, patch, cols)
    ensures Assigned(Assign(p, c, ColumnValue(patch, c)), patch, cols + (if ColumnValue(patch, c).Some? then [c] else []))
  {
    if ColumnValue(patch, c).None? {
      assert cols + [] == cols;
    } else {
      var q := Assign(p, c, ColumnValue(patch, c));
      assert Columns(q.0) == Columns(p.0) + [c];
    }
  }

  // What the updates write, read back the way the database applies them: one
  // after another, a later write to the same place replacing an earlier one.

  /** The value the last assignment to column c among sets writes. */
  function AssignedValue(sets: seq<Assignment>, args: seq<Arg>, c: Column): Option<string>
  {
    if sets == [] then None
    else
      var a := sets[|sets| - 1];
      if a.column == c && 1 <= a.at <= |args| && args[a.at - 1].TextArg? then Some(args[a.at - 1].s)
      else AssignedValue(sets[..|sets| - 1], args, c)
  }

  /** The value the updates leave in column c of the game row, if they write it. */
  function WrittenColumn(plan: seq<Update>, c: Column): Option<string>
  {
    if plan == [] then None
    else
      var u := plan[|plan| - 1];
      var v := if u.GameUpdate? then AssignedValue(u.sets, u.args, c) else None;
      if v.Some? then v else WrittenColumn(plan[..|plan| - 1], c)
  }

  /** The score the updates leave for the given club, if they write one. */
  function WrittenScore(plan: seq<Update>, club: int): Option<int>
  {
    if plan == [] then None
    else
      var u := plan[|plan| - 1];
      if ScoresFor(u, club) then Some(u.args[0].n) else WrittenScore(plan[..|plan| - 1], club)
  }

  /** The update sets the score of the given club. */
  predicate ScoresFor(u: Update, club: int)
  {
    u.ScoreUpdate? && |u.args| == 3 && u.args[2] == IntArg(club) && u.args[0].IntArg?
  }

  lemma WrittenScoreAppend(plan: seq<Update>, more: seq<Update>, club: int)
    requires |more| <= 1
    ensures WrittenScore(plan + more, club)
      == if more != [] && ScoresFor(more[0], club) then Some(more[0].args[0].n) else WrittenScore(plan, club)
  {
    if more == [] {
      assert plan + more == plan;
    } else {
      assert (plan + more)[..|plan + more| - 1] == plan;
    }
  }

  /** The placeholder an update names the game by. */
  function KeyAt(u: Update): int
  {
    match u
    case GameUpdate(_, idAt, _) => idAt
    case ScoreUpdate(_) => 2
  }

  /** Running the updates of an edit writes exactly what the edit sets: each
      game column it sets gets its value, no other column is written, and each
      club's score is the one the edit gives it (when the two clubs differ). */
  lemma EditPlanWrites(game: Game, patch: EditPatch, c: Column)
    requires game.home.id != game.away.id
    ensures WrittenColumn(EditPlan(game, patch), c) == ColumnValue(patch, c)
    ensures WrittenScore(EditPlan(game, patch), game.home.id) == patch.homeScore
    ensures WrittenScore(EditPlan(game, patch), game.away.id) == patch.awayScore
  {
    var g := Present(GamePart(game, patch));
    var h := Present(ScorePart(game, patch.homeScore, game.home));
    var w := Present(ScorePart(game, patch.awayScore, game.away));
    GameColumnWritten(game, patch, c);
    ColumnsWritten(g, h, w, c);
    ScoresWritten(g, h, w, game, patch);
  }

  lemma GameColumnWritten(game: Game, patch: EditPatch, c: Column)
    ensures WrittenColumn(Present(GamePart(game, patch)), c) == ColumnValue(patch, c)
  {
    var p := GameAssignments(patch);
    GameAssignmentsAssigned(patch);
    SetColumnsMembers(patch, c);
    SetColumnsEmpty(patch);
    if p.0 != [] {
      AssignedValueAt(p, patch, SetColumns(patch), [IntArg(game.id)], c);
      var g := Present(GamePart(game, patch));
      assert g[..0] == [];
    }
  }

  /** Assignments numbered 1.. and bound to their values leave in each column
      the value the patch gives it, whatever arguments follow theirs. */
  lemma {:induction false} AssignedValueAt(p: (seq<Assignment>, seq<Arg>), patch: EditPatch, cols: seq<Column>, extra: seq<Arg>, c: Column)
    requires Assigned(p, patch, cols)
    ensures AssignedValue(p.0, p.1 + extra, c) == if c in cols then ColumnValue(patch, c) else None
    decreases |p.0|
  {
    if p.0 != [] {
      var n := |p.0|;
      var last := p.0[n - 1];
      var init := (p.0[..n - 1], p.1[..n - 1]);
      assert p.0 == init.0 + [last];
      assert Columns(p.0) == Columns(init.0) + [last.column];
      assert Assigned(init, patch, Columns(init.0)) by {
        forall k | 0 <= k < |init.0|
          ensures init.0[k] == p.0[k] && init.1[k] == p.1[k]
        {
        }
      }
      assert (p.1 + extra)[n - 1] == p.1[n - 1];
      assert p.1 + extra == init.1 + ([p.1[n - 1]] + extra);
      AssignedValueAt(init, patch, Columns(init.0), [p.1[n - 1]] + extra, c);
    }
  }

  lemma SetColumnsMembers(patch: EditPatch, c: Column)
    ensures c in SetColumns(patch) <==> ColumnValue(patch, c).Some?
  {
  }

  /** Score updates write no game column. */
  lemma ColumnsWritten(g: seq<Update>, h: seq<Update>, w: seq<Update>, c: Column)
    requires |h| <= 1 && |w| <= 1
    requires (forall i :: 0 <= i < |h| ==> h[i].ScoreUpdate?) && (forall i :: 0 <= i < |w| ==> w[i].ScoreUpdate?)
    ensures WrittenColumn(g + h + w, c) == WrittenColumn(g, c)
  {
    ScoresWriteNoColumn(g, h, c);
    ScoresWriteNoColumn(g + h, w, c);
  }

  lemma ScoresWriteNoColumn(plan: seq<Update>, more: seq<Update>, c: Column)
    requires |more| <= 1 && forall i :: 0 <= i < |more| ==> more[i].ScoreUpdate?
    ensures WrittenColumn(plan + more, c) == WrittenColumn(plan, c)
  {
    if more == [] {
      assert plan + more == plan;
    } else {
      assert (plan + more)[..|plan + more| - 1] == plan;
    }
  }

  lemma ScoresWritten(g: seq<Update>, h: seq<Update>, w: seq<Update>, game: Game, patch: EditPatch)
    requires game.home.id != game.away.id
    requires g == Present(GamePart(game, patch))
    requires h == Present(ScorePart(game, patch.homeScore, game.home))
    requires w == Present(ScorePart(game, patch.awayScore, game.away))
    ensures WrittenScore(g + h + w, game.home.id) == patch.homeScore
    ensures WrittenScore(g + h + w, game.away.id) == patch.awayScore
  {
    var home, away := game.home.id, game.away.id;
    assert [] + g == g;
    assert g != [] ==> g[0].GameUpdate?;
    WrittenScoreAppend([], g, home);
    WrittenScoreAppend([], g, away);
    assert WrittenScore(g, home) == None && WrittenScore(g, away) == None;
    ScorePartWrites(game, patch.homeScore, game.home, away);
    WrittenScoreAppend(g, h, home);
    WrittenScoreAppend(g, h, away);
    assert WrittenScore(g + h, home) == patch.homeScore && WrittenScore(g + h, away) == None;
    ScorePartWrites(game, patch.awayScore, game.away, home);
    WrittenScoreAppend(g + h, w, home);
    WrittenScoreAppend(g + h, w, away);
  }

  /** A score update sets the score of its own club and of no other. */
  lemma ScorePartWrites(game: Game, score: Option<int>, club: Club, other: int)
    requires other != club.id
    ensures var u := Present(ScorePart(game, score, club));
      && |u| <= 1 && (u == [] <==> score.None?)
      && (u != [] ==> ScoresFor(u[0], club.id) && Some(u[0].args[0].n) == score && !ScoresFor(u[0], other))
  {
  }

  /** Every update of an edit names the edited game, at the placeholder its text
      uses for the game id; there is at most one update per kind, the game row
      first, and none at all when the edit sets nothing. */
  lemma EditPlanShape(game: Game, patch: EditPatch)
    ensures var plan := EditPlan(game, patch);
      && (plan == [] <==> patch == EditPatch(None, None, None, None, None))
      && |plan| <= 3
      && (forall i :: 0 < i < |plan| ==> plan[i].ScoreUpdate?)
      && forall i :: 0 <= i < |plan| ==>
           1 <= KeyAt(plan[i]) <= |plan[i].args| && plan[i].args[KeyAt(plan[i]) - 1] == IntArg(game.id)
  {
    GamePartMeaning(game, patch);
    var g, h, w := Present(GamePart(game, patch)), Present(ScorePart(game, patch.homeScore, game.home)),
                   Present(ScorePart(game, patch.awayScore, game.away));
    var plan := EditPlan(game, patch);
    assert |plan| == |g| + |h| + |w|;
    forall i | 0 <= i < |plan|
      ensures i > 0 ==> plan[i].ScoreUpdate?
      ensures 1 <= KeyAt(plan[i]) <= |plan[i].args| && plan[i].args[KeyAt(plan[i]) - 1] == IntArg(game.id)
    {
      if i < |g| {
        assert plan[i] == g[0];
      } else if i < |g| + |h| {
        assert plan[i] == h[0];
      } else {
        assert plan[i] == w[0];
      }
    }
  }

  // ---------------------------------------------------------------------------
  // editGame: building the statements
  // ---------------------------------------------------------------------------

  function Compiled(u: Option<Update>): Option<Statement>
  {
    match u
    case None => None
    case Some(x) => Some(ToStatement(x))
  }

  /** The statements of an edit are those of its three parts, in order. */
  lemma EditStatementsParts(game: Game, patch: EditPatch)
    ensures EditStatements(game, patch)
      == Present(Compiled(GamePart(game, patch))) + Present(Compiled(ScorePart(game, patch.homeScore, game.home)))
         + Present(Compiled(ScorePart(game, patch.awayScore, game.away)))
  {
    var g, h, w := GamePart(game, patch), ScorePart(game, patch.homeScore, game.home),
                   ScorePart(game, patch.awayScore, game.away);
    var plan := EditPlan(game, patch);
    var r := EditStatements(game, patch);
    var e := Present(Compiled(g)) + Present(Compiled(h)) + Present(Compiled(w));
    assert |e| == |r|;
    forall i | 0 <= i < |r|
      ensures r[i] == e[i]
    {
      if i < |Present(g)| {
        assert plan[i] == g.value && e[i] == ToStatement(g.value);
      } else if i < |Present(g)| + |Present(h)| {
        assert plan[i] == h.value && e[i] == ToStatement(h.value);
      } else {
        assert plan[i] == w.value && e[i] == ToStatement(w.value);
      }
    }
  }

  /** One column block of editGame: a set column adds `column = $arg` and its
      value, and moves the counter on. */
  method AddAssignment(ghost p: (seq<Assignment>, seq<Arg>), updates: seq<string>, args: seq<Arg>, arg: int,
                       c: Column, v: (string, bool))
    returns (updates': seq<string>, args': seq<Arg>, arg': int)
    requires updates == AssignmentTexts(p.0) && args == p.1 && arg == |p.1| + 1
    ensures var q := Assign(p, c, Given(v));
      updates' == AssignmentTexts(q.0) && args' == q.1 && arg' == |q.1| + 1
  {
    updates', args', arg' := updates, args, arg;
    if v.1 {
      updates' := updates + [ColumnName(c) + " = " + Placeholder(arg)];
      args' := args + [TextArg(v.0)];
      arg' := arg + 1;
      assert AssignmentTexts(p.0 + [Assignment(c, arg)]) == AssignmentTexts(p.0) + [AssignmentText(Assignment(c, arg))];
    }
  }

  /** The UPDATE of the game row, when the edit sets any of its columns. */
  method PrepareGameUpdate(game: Game, edit: GameEdit) returns (stmt: Option<Statement>)
    ensures stmt == Compiled(GamePart(game, edit.Patch()))
  {
    ghost var p: (seq<Assignment>, seq<Arg>) := ([], []);
    var updates: seq<string> := [];
    var args: seq<Arg> := [];
    var arg := 1;
    updates, args, arg := AddAssignment(p, updates, args, arg, GameDate, edit.Date());
    p := Assign(p, GameDate, Given(edit.Date()));
    updates, args, arg := AddAssignment(p, updates, args, arg, GameTitle, edit.Title());
    p := Assign(p, GameTitle, Given(edit.Title()));
    updates, args, arg := AddAssignment(p, updates, args, arg, GameVenue, edit.Venue());
    p := Assign(p, GameVenue, Given(edit.Venue()));

    if arg > 1 {
      var text := GameUpdateHead + Join(updates, ", ") + GameUpdateKey + Placeholder(arg);
      stmt := Some(Statement(text, args + [IntArg(game.id)]));
    } else {
      stmt := None;
    }
  }

  /** The UPDATE of one club's score, when the edit sets it. */
  method PrepareScoreUpdate(game: Game, score: (int, bool), club: Club) returns (stmt: Option<Statement>)
    ensures stmt == Compiled(ScorePart(game, Given(score), club))
  {
    if score.1 {
      stmt := Some(Statement(ScoreUpdateText, [IntArg(score.0), IntArg(game.id), IntArg(club.id)]));
    } else {
      stmt := None;
    }
  }

  // ---------------------------------------------------------------------------
  // editGame: the transaction
  // ---------------------------------------------------------------------------

  /** An error reported by the database driver. */
  datatype DbError = DbError(message: string)

  /** The calls a transaction makes on the database. */
  datatype Call = BeginCall | ExecCall(stmt: Statement) | RollbackCall | CommitCall

  /** The database as editGame uses it. Which calls fail is given by `fail`,
      keyed by the position of the call in the trace; what the game row reads
      back as is given by `fetch`, from the statements committed so far. */
  class Database {
    var trace: seq<Call>
    var committed: seq<Statement>
    var pending: seq<Statement>
    var inTx: bool
    const fail: nat -> Option<DbError>
    const fetch: (int, seq<Statement>) -> (Game, Option<DbError>)

    constructor (fail: nat -> Option<DbError>, fetch: (int, seq<Statement>) -> (Game, Option<DbError>))
      ensures trace == [] && committed == [] && pending == [] && !inTx
      ensures this.fail == fail && this.fetch == fetch
    {
      this.fail, this.fetch := fail, fetch;
      trace, committed, pending, inTx := [], [], [], false;
    }

    method Begin() returns (err: Option<DbError>)
      requires !inTx
      modifies this
      ensures err == fail(|old(trace)|) && trace == old(trace) + [BeginCall]
      ensures inTx == err.None? && pending == [] && committed == old(committed)
    {
      err := fail(|trace|);
      trace := trace + [BeginCall];
      inTx := err.None?;
      pending := [];
    }

    /** A statement that fails leaves the transaction open, to be rolled back. */
    method Exec(s: Statement) returns (err: Option<DbError>)
      requires inTx
      modifies this
      ensures err == fail(|old(trace)|) && trace == old(trace) + [ExecCall(s)]
      ensures inTx && committed == old(committed)
      ensures pending == if err.None? then old(pending) + [s] else old(pending)
    {
      err := fail(|trace|);
      trace := trace + [ExecCall(s)];
      if err.None? {
        pending := pending + [s];
      }
    }

    method Rollback()
      requires inTx
      modifies this
      ensures trace == old(trace) + [RollbackCall]
      ensures !inTx && pending == [] && committed == old(committed)
    {
      trace := trace + [RollbackCall];
      inTx, pending := false, [];
    }

    /** The pending statements become durable together, or not at all. */
    method Commit() returns (err: Option<DbError>)
      requires inTx
      modifies this
      ensures err == fail(|old(trace)|) && trace == old(trace) + [CommitCall]
      ensures !inTx && pending == []
      ensures committed == if err.None? then old(committed) + old(pending) else old(committed)
    {
      err := fail(|trace|);
      trace := trace + [CommitCall];
      if err.None? {
        committed := committed + pending;
      }
      inTx, pending := false, [];
    }

    /** store.game: the game row as it reads back now. */
    method Game(id: int) returns (g: Game, err: Option<DbError>)
      ensures (g, err) == fetch(id, committed)
    {
      g, err := fetch(id, committed).0, fetch(id, committed).1;
    }
  }

  function ExecCalls(steps: seq<Statement>): (r: seq<Call>)
    ensures |r| == |steps| && forall i :: 0 <= i < |steps| ==> r[i] == ExecCall(steps[i])
  {
    seq(|steps|, i requires 0 <= i < |steps| => ExecCall(steps[i]))
  }

  /** The calls editGame makes once its transaction is open, running steps with
      the call at trace position at first, and the error it returns (None when
      it committed): the first failing statement is rolled back, and after the
      last one comes the commit. */
  function ExecRun(steps: seq<Statement>, fail: nat -> Option<DbError>, at: nat): (seq<Call>, Option<DbError>)
    decreases |steps|
  {
    if steps == [] then ([CommitCall], fail(at))
    else if fail(at).Some? then ([ExecCall(steps[0]), RollbackCall], fail(at))
    else
      var r := ExecRun(steps[1..], fail, at + 1);
      ([ExecCall(steps[0])] + r.0, r.1)
  }

  /** All the calls editGame makes and the error it returns. */
  function TxRun(steps: seq<Statement>, fail: nat -> Option<DbError>, at: nat): (seq<Call>, Option<DbError>)
  {
    if fail(at).Some? then ([BeginCall], fail(at))
    else
      var r := ExecRun(steps, fail, at + 1);
      ([BeginCall] + r.0, r.1)
  }

  /** The run succeeds exactly when every call it makes does. */
  lemma {:induction false} ExecRunSucceeds(steps: seq<Statement>, fail: nat -> Option<DbError>, at: nat)
    ensures ExecRun(steps, fail, at).1.None? <==> forall i :: at <= i < at + |steps| + 1 ==> fail(i).None?
    decreases |steps|
  {
    if steps != [] && fail(at).None? {
      ExecRunSucceeds(steps[1..], fail, at + 1);
    }
  }

  /** A successful run executes every statement in order, then commits. */
  lemma {:induction false} ExecRunCalls(steps: seq<Statement>, fail: nat -> Option<DbError>, at: nat)
    requires ExecRun(steps, fail, at).1.None?
    ensures ExecRun(steps, fail, at).0 == ExecCalls(steps) + [CommitCall]
    decreases |steps|
  {
    if steps != [] {
      ExecRunCalls(steps[1..], fail, at + 1);
      assert ExecCalls(steps) == [ExecCall(steps[0])] + ExecCalls(steps[1..]);
    }
  }

  /** A failed run returns the error of its first failing call. */
  lemma {:induction false} ExecRunFirstError(steps: seq<Statement>, fail: nat -> Option<DbError>, at: nat)
    requires ExecRun(steps, fail, at).1.Some?
    ensures exists j :: && at <= j < at + |steps| + 1 && ExecRun(steps, fail, at).1 == fail(j)
                        && forall i :: at <= i < j ==> fail(i).None?
    decreases |steps|
  {
    if steps == [] || fail(at).Some? {
      assert at <= at < at + |steps| + 1;
    } else {
      ExecRunFirstError(steps[1..], fail, at + 1);
    }
  }

  /** A run ends with either a commit or a rollback, never both. */
  lemma {:induction false} ExecRunEnds(steps: seq<Statement>, fail: nat -> Option<DbError>, at: nat)
    ensures var calls := ExecRun(steps, fail, at).0;
      && (CommitCall in calls <==> RollbackCall !in calls)
      && calls != [] && calls[|calls| - 1] in {CommitCall, RollbackCall}
    decreases |steps|
  {
    var calls := ExecRun(steps, fail, at).0;
    if steps == [] {
      assert calls == [CommitCall];
    } else if fail(at).Some? {
      assert calls == [ExecCall(steps[0]), RollbackCall];
    } else {
      ExecRunEnds(steps[1..], fail, at + 1);
      var rest := ExecRun(steps[1..], fail, at + 1).0;
      assert calls == [ExecCall(steps[0])] + rest;
      assert calls[|calls| - 1] == rest[|rest| - 1];
      assert CommitCall in calls <==> CommitCall in rest;
      assert RollbackCall in calls <==> RollbackCall in rest;
    }
  }

  /** editGame commits exactly when every call it makes succeeds. */
  lemma TxRunSucceeds(steps: seq<Statement>, fail: nat -> Option<DbError>, at: nat)
    ensures TxRun(steps, fail, at).1.None? <==> forall i :: at <= i < at + |steps| + 2 ==> fail(i).None?
  {
    if fail(at).None? {
      ExecRunSucceeds(steps, fail, at + 1);
    }
  }

  /** When it commits, it has begun, run every statement in order and
      committed. */
  lemma TxRunCalls(steps: seq<Statement>, fail: nat -> Option<DbError>, at: nat)
    requires TxRun(steps, fail, at).1.None?
    ensures TxRun(steps, fail, at).0 == [BeginCall] + ExecCalls(steps) + [CommitCall]
  {
    ExecRunCalls(steps, fail, at + 1);
    assert [BeginCall] + (ExecCalls(steps) + [CommitCall]) == [BeginCall] + ExecCalls(steps) + [CommitCall];
  }

  /** Otherwise it returns the error of its first failing call. */
  lemma TxRunFirstError(steps: seq<Statement>, fail: nat -> Option<DbError>, at: nat)
    requires TxRun(steps, fail, at).1.Some?
    ensures exists j :: && at <= j < at + |steps| + 2 && TxRun(steps, fail, at).1 == fail(j)
                        && forall i :: at <= i < j ==> fail(i).None?
  {
    if fail(at).Some? {
      assert at <= at < at + |steps| + 2;
    } else {
      ExecRunFirstError(steps, fail, at + 1);
      var j :| && at + 1 <= j < at + 1 + |steps| + 1 && ExecRun(steps, fail, at + 1).1 == fail(j)
               && forall i :: at + 1 <= i < j ==> fail(i).None?;
      assert forall i :: at <= i < j ==> fail(i).None?;
    }
  }

  /** It always begins first, and it never both commits and rolls back. */
  lemma TxRunEnds(steps: seq<Statement>, fail: nat -> Option<DbError>, at: nat)
    ensures var calls := TxRun(steps, fail, at).0;
      calls[0] == BeginCall && !(CommitCall in calls && RollbackCall in calls)
  {
    if fail(at).None? {
      ExecRunEnds(steps, fail, at + 1);
      var rest := ExecRun(steps, fail, at + 1).0;
      var calls := TxRun(steps, fail, at).0;
      assert calls == [BeginCall] + rest;
      assert CommitCall in calls <==> CommitCall in rest;
      assert RollbackCall in calls <==> RollbackCall in rest;
    }
  }

  /** The statements run so far and the calls still to come, when the
      remaining statements are rest: together they make up steps, and they lead
      to the trace goal and the error outcome. */
  ghost predicate Heading(db: Database, rest: seq<Statement>, steps: seq<Statement>, goal: seq<Call>, outcome: Option<DbError>)
    reads db
  {
    && db.inTx && db.pending + rest == steps
    && db.trace + ExecRun(rest, db.fail, |db.trace|).0 == goal && ExecRun(rest, db.fail, |db.trace|).1 == outcome
  }

  /** Once Begin succeeds, what is left of TxRun is ExecRun. */
  lemma TxStarts(trace: seq<Call>, steps: seq<Statement>, fail: nat -> Option<DbError>)
    requires fail(|trace|).None?
    ensures var r := ExecRun(steps, fail, |trace| + 1);
      && (trace + [BeginCall]) + r.0 == trace + TxRun(steps, fail, |trace|).0
      && r.1 == TxRun(steps, fail, |trace|).1
  {
    var r := ExecRun(steps, fail, |trace| + 1);
    assert (trace + [BeginCall]) + r.0 == trace + ([BeginCall] + r.0);
  }

  /** One update block of editGame: run the statement if there is one, and on
      failure roll the transaction back. */
  method ExecOrRollback(db: Database, s: Option<Statement>, ghost later: seq<Statement>,
                        ghost steps: seq<Statement>, ghost goal: seq<Call>, ghost outcome: Option<DbError>)
    returns (err: Option<DbError>)
    requires Heading(db, Present(s) + later, steps, goal, outcome)
    modifies db
    ensures db.committed == old(db.committed)
    ensures err.None? ==> Heading(db, later, steps, goal, outcome)
    ensures err.Some? ==> !db.inTx && db.trace == goal && err == outcome
  {
    ghost var at := |db.trace|;
    if s.Some? {
      assert (Present(s) + later)[0] == s.value && (Present(s) + later)[1..] == later;
      err := db.Exec(s.value);
      if err.Some? {
        db.Rollback();
      } else {
        var rest := ExecRun(later, db.fail, at + 1).0;
        assert old(db.trace) + [ExecCall(s.value)] + rest == old(db.trace) + ([ExecCall(s.value)] + rest);
        assert old(db.pending) + [s.value] + later == old(db.pending) + ([s.value] + later);
      }
    } else {
      err := None;
      assert Present(s) + later == later;
    }
  }

  /** The second half of editGame: run the prepared updates in one
      transaction, rolling back at the first failure. */
  method StoreUpdates(db: Database, gameStmt: Option<Statement>, homeStmt: Option<Statement>, awayStmt: Option<Statement>)
    returns (err: Option<DbError>)
    requires !db.inTx
    modifies db
    ensures !db.inTx
    ensures var steps := Present(gameStmt) + Present(homeStmt) + Present(awayStmt);
      var run := TxRun(steps, db.fail, |old(db.trace)|);
      && db.trace == old(db.trace) + run.0 && err == run.1
      && db.committed == if err.None? then old(db.committed) + steps else old(db.committed)
  {
    ghost var steps := Present(gameStmt) + Present(homeStmt) + Present(awayStmt);
    ghost var t0 := db.trace;
    ghost var run := TxRun(steps, db.fail, |t0|);

    err := db.Begin();
    if err.Some? {
      assert run == ([BeginCall], err);
      return;
    }
    assert db.trace == t0 + [BeginCall] && db.pending == [];
    TxStarts(t0, steps, db.fail);
    assert Heading(db, steps, steps, t0 + run.0, run.1) by {
      assert db.pending + steps == steps;
    }
    err := RunUpdates(db, gameStmt, homeStmt, awayStmt, steps, t0 + run.0, run.1);
  }

  /** The update blocks of editGame and the commit, inside the transaction. */
  method RunUpdates(db: Database, gameStmt: Option<Statement>, homeStmt: Option<Statement>, awayStmt: Option<Statement>,
                    ghost steps: seq<Statement>, ghost goal: seq<Call>, ghost outcome: Option<DbError>)
    returns (err: Option<DbError>)
    requires steps == Present(gameStmt) + Present(homeStmt) + Present(awayStmt)
    requires Heading(db, steps, steps, goal, outcome)
    modifies db
    ensures !db.inTx && db.trace == goal && err == outcome
    ensures db.committed == if err.None? then old(db.committed) + steps else old(db.committed)
  {
    ghost var later := Present(homeStmt) + Present(awayStmt);
    assert steps == Present(gameStmt) + later;
    err := ExecOrRollback(db, gameStmt, later, steps, goal, outcome);
    if err.Some? {
      return;
    }
    err := ExecOrRollback(db, homeStmt, Present(awayStmt), steps, goal, outcome);
    if err.Some? {
      return;
    }
    err := FinishUpdates(db, awayStmt, steps, goal, outcome);
  }

  /** The last update block of editGame, then the commit. */
  method FinishUpdates(db: Database, awayStmt: Option<Statement>,
                       ghost steps: seq<Statement>, ghost goal: seq<Call>, ghost outcome: Option<DbError>)
    returns (err: Option<DbError>)
    requires Heading(db, Present(awayStmt), steps, goal, outcome)
    modifies db
    ensures !db.inTx && db.trace == goal && err == outcome
    ensures db.committed == if err.None? then old(db.committed) + steps else old(db.committed)
  {
    assert Present(awayStmt) == Present(awayStmt) + [];
    err := ExecOrRollback(db, awayStmt, [], steps, goal, outcome);
    if err.Some? {
      return;
    }
    assert db.pending == db.pending + [] == steps;
    err := db.Commit();
  }

  /** editGame: run the up to three updates of an edit in one transaction, then
      read the game back. All of them become durable or none does. */
  method EditGame(db: Database, game: Game, edit: GameEdit) returns (result: Game, err: Option<DbError>)
    requires !db.inTx
    modifies db
    ensures !db.inTx
    ensures var steps := EditStatements(game, edit.Patch());
      var run := TxRun(steps, db.fail, |old(db.trace)|);
      && db.trace == old(db.trace) + run.0
      && (run.1.None? ==> db.committed == old(db.committed) + steps && (result, err) == db.fetch(game.id, db.committed))
      && (run.1.Some? ==> db.committed == old(db.committed) && result == game && err == run.1)
  {
    var gameStmt := PrepareGameUpdate(game, edit);
    var homeStmt := PrepareScoreUpdate(game, edit.HomeScore(), game.home);
    var awayStmt := PrepareScoreUpdate(game, edit.AwayScore(), game.away);
    assert Present(gameStmt) + Present(homeStmt) + Present(awayStmt) == EditStatements(game, edit.Patch()) by {
      EditStatementsParts(game, edit.Patch());
    }

    err := StoreUpdates(db, gameStmt, homeStmt, awayStmt);
    if err.Some? {
      return game, err;
    }
    result, err := db.Game(game.id);
  }
}
