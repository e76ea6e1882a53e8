/** The command-line driver (internal/cli.go): the prompts that read answers
    line by line, the dirty sets that a batch of added or edited games leaves
    behind, how they are drained into page regenerations, which page failures
    end the program, and the game filters the index pages are generated from.
    Standard input is a sequence of lines; the database and the page writer
    are outcomes given as parameters. */
module Cli {
  import opened Wrappers
  import opened Models
  import opened Text
  import opened Store

  // ---------------------------------------------------------------------------
  // Prompts
  // ---------------------------------------------------------------------------

  /** Line k of standard input. Past the end a Scanner reports the empty text,
      and every later read does too. */
  function LineAt(lines: seq<string>, k: nat): string
  {
    if k < |lines| then lines[k] else ""
  }

  /** Where a prompt that accepts the lines ok accepts, reading from line k on:
      the first acceptable line, or None when none ever is (then the prompt
      keeps asking forever). */
  function FirstAccepted(lines: seq<string>, k: nat, ok: string -> bool): Option<nat>
    decreases |lines| - k
  {
    if k >= |lines| then (if ok("") then Some(k) else None)
    else if ok(lines[k]) then Some(k)
    else FirstAccepted(lines, k + 1, ok)
  }

  /** FirstAccepted finds the first acceptable line, and finds nothing only
      when no line read from k on, however many, is acceptable. */
  lemma {:induction false} FirstAcceptedMeaning(lines: seq<string>, k: nat, ok: string -> bool)
    ensures FirstAccepted(lines, k, ok).Some? ==>
      var j := FirstAccepted(lines, k, ok).value;
      k <= j && ok(LineAt(lines, j)) && forall i :: k <= i < j ==> !ok(LineAt(lines, i))
    ensures FirstAccepted(lines, k, ok).None? <==> forall i :: k <= i ==> !ok(LineAt(lines, i))
    decreases |lines| - k
  {
    if k >= |lines| {
      if !ok("") {
        forall i | k <= i
          ensures !ok(LineAt(lines, i))
        {
          assert LineAt(lines, i) == "";
        }
      }
    } else if !ok(lines[k]) {
      FirstAcceptedMeaning(lines, k + 1, ok);
      assert LineAt(lines, k) == lines[k];
    } else {
      assert LineAt(lines, k) == lines[k];
    }
  }

  /** An accepted answer and the number of the first line not yet read. */
  datatype Reply<T> = Reply(value: T, next: nat)

  /** promptString accepts a line whose length in bytes is within [min, max]. */
  function StringOk(min: int, max: int): string -> bool
  {
    s => min <= Utf8Len(s) <= max
  }

  /** promptString: the first line from `from` on whose length is in bounds. */
  method PromptString(lines: seq<string>, from: nat, min: int, max: int) returns (r: Option<Reply<string>>)
    ensures r.None? <==> FirstAccepted(lines, from, StringOk(min, max)).None?
    ensures r.Some? ==> r.value.next == FirstAccepted(lines, from, StringOk(min, max)).value + 1
    ensures r.Some? ==> r.value.value == LineAt(lines, r.value.next - 1) && min <= Utf8Len(r.value.value) <= max
  {
    var k := from;
    while true
      invariant from <= k
      invariant FirstAccepted(lines, from, StringOk(min, max)) == FirstAccepted(lines, k, StringOk(min, max))
      decreases |lines| - k
    {
      var val := LineAt(lines, k);
      if Utf8Len(val) >= min && Utf8Len(val) <= max {
        return Some(Reply(val, k + 1));
      }
      if k >= |lines| {
        return None;
      }
      k := k + 1;
    }
  }

  /** The answers promptBool understands. */
  function YesNo(s: string): Option<bool>
  {
    if s == "y" || s == "Y" || s == "yes" then Some(true)
    else if s == "n" || s == "N" || s == "no" then Some(false)
    else None
  }

  function BoolOk(): string -> bool
  {
    s => YesNo(s).Some?
  }

  /** promptBool: the first yes or no answer. */
  method PromptBool(lines: seq<string>, from: nat) returns (r: Option<Reply<bool>>)
    ensures r.None? <==> FirstAccepted(lines, from, BoolOk()).None?
    ensures r.Some? ==> r.value.next == FirstAccepted(lines, from, BoolOk()).value + 1
    ensures r.Some? ==> Some(r.value.value) == YesNo(LineAt(lines, r.value.next - 1))
  {
    var k := from;
    while true
      invariant from <= k
      invariant FirstAccepted(lines, from, BoolOk()) == FirstAccepted(lines, k, BoolOk())
      decreases |lines| - k
    {
      var response := LineAt(lines, k);
      if response == "y" || response == "Y" || response == "yes" {
        return Some(Reply(true, k + 1));
      } else if response == "n" || response == "N" || response == "no" {
        return Some(Reply(false, k + 1));
      }
      if k >= |lines| {
        return None;
      }
      k := k + 1;
    }
  }

  /** promptBool reads y, Y and yes as true, n, N and no as false, and asks
      again on anything else. */
  lemma YesNoMeaning(s: string)
    ensures YesNo(s) == Some(true) <==> s in ["y", "Y", "yes"]
    ensures YesNo(s) == Some(false) <==> s in ["n", "N", "no"]
    ensures YesNo(s).None? <==> s !in ["y", "Y", "yes", "n", "N", "no"]
  {
  }

  /** promptInt accepts a line that strconv.Atoi reads without error. */
  function IntOk(): string -> bool
  {
    s => Atoi(s).1
  }

  /** promptInt: the first line that is a decimal int64. */
  method PromptInt(lines: seq<string>, from: nat) returns (r: Option<Reply<int>>)
    ensures r.None? <==> FirstAccepted(lines, from, IntOk()).None?
    ensures r.Some? ==> r.value.next == FirstAccepted(lines, from, IntOk()).value + 1
    ensures r.Some? ==> from < r.value.next
    ensures r.Some? ==> ParseDecimal(LineAt(lines, r.value.next - 1)) == Some(r.value.value)
    ensures r.Some? ==> MinInt64 <= r.value.value <= MaxInt64
  {
    var k := from;
    while true
      invariant from <= k
      invariant FirstAccepted(lines, from, IntOk()) == FirstAccepted(lines, k, IntOk())
      decreases |lines| - k
    {
      var (val, ok) := Atoi(LineAt(lines, k));
      if ok {
        return Some(Reply(val, k + 1));
      }
      if k >= |lines| {
        return None;
      }
      k := k + 1;
    }
  }

  /** promptList accepts a line that reads as an option number 1 .. n; an
      unreadable line reads as 0. */
  function ChoiceOk(n: int): string -> bool
  {
    s => 1 <= Atoi(s).0 <= n
  }

  /** promptList: the zero-based index of the first option number chosen. */
  method PromptList(lines: seq<string>, from: nat, n: nat) returns (r: Option<Reply<int>>)
    ensures r.None? <==> FirstAccepted(lines, from, ChoiceOk(n)).None?
    ensures r.Some? ==> r.value.next == FirstAccepted(lines, from, ChoiceOk(n)).value + 1
    ensures r.Some? ==> from < r.value.next
    ensures r.Some? ==> r.value.value == Atoi(LineAt(lines, r.value.next - 1)).0 - 1
    ensures r.Some? ==> 0 <= r.value.value < n
    ensures n == 0 ==> r.None?
  {
    var k := from;
    var choice := 0;
    var line := "";
    while choice < 1 || choice > n
      invariant from <= k
      invariant choice < 1 || choice > n ==> FirstAccepted(lines, from, ChoiceOk(n)) == FirstAccepted(lines, k, ChoiceOk(n))
      invariant 1 <= choice <= n ==> k > from && FirstAccepted(lines, from, ChoiceOk(n)) == Some(k - 1)
      invariant 1 <= choice <= n ==> line == LineAt(lines, k - 1)
      invariant choice == Atoi(line).0
      decreases |lines| + 1 - k, if choice < 1 || choice > n then 1 else 0
    {
      line := LineAt(lines, k);
      choice := Atoi(line).0;
      if (choice < 1 || choice > n) && k >= |lines| {
        return None;
      }
      k := k + 1;
    }
    return Some(Reply(choice - 1, k));
  }

  /** A line that is not a decimal number reads as 0, unless it starts with a
      digit run too long for 64 bits, which reads as an int64 bound; either
      way it selects nothing from a list of fewer than MaxInt64 options. */
  lemma NonNumericRefused(s: string, n: int)
    requires ParseDecimal(s).None?
    ensures Atoi(s).0 == 0 || (Overflows(s) && |s| >= 20 && (Atoi(s).0 == MaxInt64 || Atoi(s).0 == MinInt64))
    ensures n < MaxInt64 ==> !ChoiceOk(n)(s)
  {
    AtoiErrorValue(s);
    if Overflows(s) {
      OverflowIsLong(s);
    }
  }

  /** The pattern ^[0-9]{4}-[0-9]{1,2}-[0-9]{1,2}$ with m month digits and
      d day digits. */
  predicate DateShape(s: string, m: nat, d: nat)
  {
    && |s| == 6 + m + d && AllDigits(s[..4]) && s[4] == '-'
    && AllDigits(s[5..5 + m]) && s[5 + m] == '-' && AllDigits(s[6 + m..])
  }

  /** What the regular expression promptDate uses matches: its two bounded
      repetitions spelled out. */
  predicate DatePattern(s: string)
  {
    DateShape(s, 1, 1) || DateShape(s, 1, 2) || DateShape(s, 2, 1) || DateShape(s, 2, 2)
  }

  /** A one-pass check of the same pattern: four digits, a dash, then the
      second dash decides whether the month has one digit or two. */
  predicate IsDateText(s: string)
  {
    && 8 <= |s| <= 10 && AllDigits(s[..4]) && s[4] == '-'
    && var m := if s[6] == '-' then 1 else 2;
       && s[5 + m] == '-' && AllDigits(s[5..5 + m])
       && 1 <= |s| - (6 + m) <= 2 && AllDigits(s[6 + m..])
  }

  /** The one-pass check accepts exactly the lines the regular expression matches. */
  lemma DateTextMatches(s: string)
    ensures IsDateText(s) <==> DatePattern(s)
  {
    if DatePattern(s) {
      if DateShape(s, 1, 1) || DateShape(s, 1, 2) {
        assert s[6] == '-';
      } else {
        assert s[6] != '-' by {
          assert IsDigit(s[5..7][1]);
        }
      }
    }
  }

  function DateOk(): string -> bool
  {
    s => IsDateText(s)
  }

  /** promptDate: the first line of the form yyyy-m-d, with one or two digits
      for month and day. */
  method PromptDate(lines: seq<string>, from: nat) returns (r: Option<Reply<string>>)
    ensures r.None? <==> FirstAccepted(lines, from, DateOk()).None?
    ensures r.Some? ==> r.value.next == FirstAccepted(lines, from, DateOk()).value + 1
    ensures r.Some? ==> r.value.value == LineAt(lines, r.value.next - 1) && DatePattern(r.value.value)
  {
    var k := from;
    var date := "";
    var valid := false;
    while !valid
      invariant from <= k
      invariant !valid ==> FirstAccepted(lines, from, DateOk()) == FirstAccepted(lines, k, DateOk())
      invariant valid ==> k > from && FirstAccepted(lines, from, DateOk()) == Some(k - 1)
      invariant valid ==> date == LineAt(lines, k - 1) && IsDateText(date)
      decreases |lines| + 1 - k, if valid then 0 else 1
    {
      date := LineAt(lines, k);
      valid := IsDateText(date);
      if !valid && k >= |lines| {
        return None;
      }
      k := k + 1;
    }
    DateTextMatches(date);
    return Some(Reply(date, k));
  }

  // ---------------------------------------------------------------------------
  // Dirty sets: the pages a batch of added or edited games makes stale
  // ---------------------------------------------------------------------------

  /** What one added or edited game touches: its league, its season and its
      two clubs. */
  datatype Touched = Touched(league: League, season: Season, home: Club, away: Club)

  /** addGame marks the league and season that were selected, and the two
      clubs picked for the game. */
  function AddedGame(league: League, season: Season, home: Club, away: Club): Touched
  {
    Touched(league, season, home, away)
  }

  /** editGame marks what the game reads back as after the edit. */
  function EditedGame(game: Game): Touched
  {
    Touched(game.season.league, game.season, game.home, game.away)
  }

  /** The (club, season) pairs whose club index is stale after the batch. */
  function DirtyClubs(batch: seq<Touched>): set<(Club, Season)>
  {
    (set t | t in batch :: (t.home, t.season)) + (set t | t in batch :: (t.away, t.season))
  }

  /** The leagues whose league index is stale after the batch. */
  function DirtyLeagues(batch: seq<Touched>): set<League>
  {
    set t | t in batch :: t.league
  }

  lemma DirtySnoc(batch: seq<Touched>, t: Touched)
    ensures DirtyClubs(batch + [t]) == DirtyClubs(batch) + {(t.home, t.season)} + {(t.away, t.season)}
    ensures DirtyLeagues(batch + [t]) == DirtyLeagues(batch) + {t.league}
  {
    var b := batch + [t];
    forall x | x in DirtyClubs(b)
      ensures x in DirtyClubs(batch) + {(t.home, t.season)} + {(t.away, t.season)}
    {
      var u :| u in b && (x == (u.home, u.season) || x == (u.away, u.season));
      if u != t {
        assert u in batch;
      }
    }
    forall x | x in DirtyClubs(batch)
      ensures x in DirtyClubs(b)
    {
      var u :| u in batch && (x == (u.home, u.season) || x == (u.away, u.season));
      assert u in b;
    }
    assert t in b;
  }

  /** The map updates of addGame and editGame over a batch: after it, the
      dirty sets hold exactly what the batch touched. */
  method CollectDirty(batch: seq<Touched>) returns (clubs: set<(Club, Season)>, leagues: set<League>)
    ensures clubs == DirtyClubs(batch) && leagues == DirtyLeagues(batch)
  {
    clubs, leagues := {}, {};
    for i := 0 to |batch|
      invariant clubs == DirtyClubs(batch[..i]) && leagues == DirtyLeagues(batch[..i])
    {
      var t := batch[i];
      leagues := leagues + {t.league};
      clubs := clubs + {(t.home, t.season)};
      clubs := clubs + {(t.away, t.season)};
      DirtySnoc(batch[..i], t);
      assert batch[..i + 1] == batch[..i] + [t];
    }
    assert batch[..|batch|] == batch;
  }

  /** Touching again what the batch already touched changes nothing: a map key
      is set once. */
  lemma DirtyRepeat(batch: seq<Touched>, t: Touched)
    requires t in batch
    ensures DirtyClubs(batch + [t]) == DirtyClubs(batch)
    ensures DirtyLeagues(batch + [t]) == DirtyLeagues(batch)
  {
    DirtySnoc(batch, t);
    assert (t.home, t.season) in DirtyClubs(batch) && (t.away, t.season) in DirtyClubs(batch);
    assert t.league in DirtyLeagues(batch);
  }

  /** The order of the batch does not matter. */
  lemma DirtyOrderFree(batch: seq<Touched>, other: seq<Touched>)
    requires multiset(batch) == multiset(other)
    ensures DirtyClubs(batch) == DirtyClubs(other) && DirtyLeagues(batch) == DirtyLeagues(other)
  {
    forall t
      ensures t in batch <==> t in other
    {
      assert t in batch <==> t in multiset(batch);
      assert t in other <==> t in multiset(other);
    }
  }

  /** A batch of n games makes at most 2n club indexes and n league indexes stale. */
  lemma {:induction false} DirtyBounds(batch: seq<Touched>)
    ensures |DirtyClubs(batch)| <= 2 * |batch|
    ensures |DirtyLeagues(batch)| <= |batch|
    decreases |batch|
  {
    if batch != [] {
      var init, t := batch[..|batch| - 1], batch[|batch| - 1];
      assert batch == init + [t];
      DirtyBounds(init);
      DirtySnoc(init, t);
      assert |DirtyClubs(init) + {(t.home, t.season)}| <= |DirtyClubs(init)| + 1;
      assert |DirtyClubs(init) + {(t.home, t.season)} + {(t.away, t.season)}|
          <= |DirtyClubs(init) + {(t.home, t.season)}| + 1;
      assert |DirtyLeagues(init) + {t.league}| <= |DirtyLeagues(init)| + 1;
    }
  }

  // ---------------------------------------------------------------------------
  // Draining the dirty sets
  // ---------------------------------------------------------------------------

  /** A page the driver regenerates. */
  datatype Page = ClubIndex(club: Club, season: Season) | LeagueIndex(league: League) | SiteIndex

  /** The end of addGame and editGame: one club index per dirty pair, in the
      map's (unspecified) order, then one league index per dirty league, then
      the site index once. */
  method DrainPlan(clubs: set<(Club, Season)>, leagues: set<League>) returns (pages: seq<Page>)
    ensures |pages| == |clubs| + |leagues| + 1
    ensures forall i :: 0 <= i < |clubs| ==> pages[i].ClubIndex? && (pages[i].club, pages[i].season) in clubs
    ensures forall i :: |clubs| <= i < |clubs| + |leagues| ==> pages[i].LeagueIndex? && pages[i].league in leagues
    ensures pages[|pages| - 1] == SiteIndex
    ensures forall x :: x in clubs ==> ClubIndex(x.0, x.1) in pages
    ensures forall l :: l in leagues ==> LeagueIndex(l) in pages
    ensures forall i, j :: 0 <= i < j < |pages| ==> pages[i] != pages[j]
  {
    var clubPages := ClubIndexes(clubs);
    var leaguePages := LeagueIndexes(leagues);
    pages := clubPages + leaguePages + [SiteIndex];
    forall x | x in clubs
      ensures ClubIndex(x.0, x.1) in pages
    {
      var i :| 0 <= i < |clubPages| && clubPages[i] == ClubIndex(x.0, x.1);
      assert pages[i] == clubPages[i];
    }
    forall l | l in leagues
      ensures LeagueIndex(l) in pages
    {
      var i :| 0 <= i < |leaguePages| && leaguePages[i] == LeagueIndex(l);
      assert pages[|clubPages| + i] == leaguePages[i];
    }
  }

  /** The loop over the dirty clubs: each pair once, in some order. */
  method ClubIndexes(clubs: set<(Club, Season)>) returns (pages: seq<Page>)
    ensures |pages| == |clubs|
    ensures forall i :: 0 <= i < |pages| ==> pages[i].ClubIndex? && (pages[i].club, pages[i].season) in clubs
    ensures forall x :: x in clubs ==> ClubIndex(x.0, x.1) in pages
    ensures forall i, j :: 0 <= i < j < |pages| ==> pages[i] != pages[j]
  {
    pages := [];
    var rest := clubs;
    while rest != {}
      invariant rest <= clubs && |pages| + |rest| == |clubs|
      invariant forall i :: 0 <= i < |pages| ==> pages[i].ClubIndex? && (pages[i].club, pages[i].season) in clubs - rest
      invariant forall x :: x in clubs - rest ==> ClubIndex(x.0, x.1) in pages
      invariant forall i, j :: 0 <= i < j < |pages| ==> pages[i] != pages[j]
      decreases |rest|
    {
      var club :| club in rest;
      pages := pages + [ClubIndex(club.0, club.1)];
      rest := rest - {club};
    }
  }

  /** The loop over the dirty leagues: each league once, in some order. */
  method LeagueIndexes(leagues: set<League>) returns (pages: seq<Page>)
    ensures |pages| == |leagues|
    ensures forall i :: 0 <= i < |pages| ==> pages[i].LeagueIndex? && pages[i].league in leagues
    ensures forall l :: l in leagues ==> LeagueIndex(l) in pages
    ensures forall i, j :: 0 <= i < j < |pages| ==> pages[i] != pages[j]
  {
    pages := [];
    var rest := leagues;
    while rest != {}
      invariant rest <= leagues && |pages| + |rest| == |leagues|
      invariant forall i :: 0 <= i < |pages| ==> pages[i].LeagueIndex? && pages[i].league in leagues - rest
      invariant forall l :: l in leagues - rest ==> LeagueIndex(l) in pages
      invariant forall i, j :: 0 <= i < j < |pages| ==> pages[i] != pages[j]
      decreases |rest|
    {
      var league :| league in rest;
      pages := pages + [LeagueIndex(league)];
      rest := rest - {league};
    }
  }

  // ---------------------------------------------------------------------------
  // Regenerating pages, and which failures end the program
  // ---------------------------------------------------------------------------

  /** How regenerating one page went: its games query failed, its sidebar
      template could not be parsed (template.Must panics), writing it failed,
      or it was written. */
  datatype PageOutcome = Written | QueryFailed | TemplatePanic | WriteFailed

  /** The failures that end the drain: any failed query and any template
      panic, and a failed write of any page but a club index, which is only
      reported. */
  predicate Fatal(p: Page, o: PageOutcome)
  {
    o == QueryFailed || o == TemplatePanic || (o == WriteFailed && !p.ClubIndex?)
  }

  /** generateClubIndex, generateLeagueIndex and generateIndex called in turn
      on the pages: the pages attempted and whether the program ended, by
      os.Exit or by a panic. */
  method RunPages(pages: seq<Page>, outcome: Page -> PageOutcome) returns (attempted: seq<Page>, ended: bool)
    ensures ended <==> exists i :: 0 <= i < |pages| && Fatal(pages[i], outcome(pages[i]))
    ensures !ended ==> attempted == pages
    ensures ended ==> exists k :: && 0 <= k < |pages| && attempted == pages[..k + 1]
                                   && Fatal(pages[k], outcome(pages[k]))
                                   && forall i :: 0 <= i < k ==> !Fatal(pages[i], outcome(pages[i]))
  {
    attempted, ended := [], false;
    var i := 0;
    while i < |pages| && !ended
      invariant 0 <= i <= |pages| && attempted == pages[..i]
      invariant !ended ==> forall j :: 0 <= j < i ==> !Fatal(pages[j], outcome(pages[j]))
      invariant ended ==> 0 < i && Fatal(pages[i - 1], outcome(pages[i - 1]))
                           && forall j :: 0 <= j < i - 1 ==> !Fatal(pages[j], outcome(pages[j]))
    {
      var page := pages[i];
      attempted := attempted + [page];
      match outcome(page) {
        case QueryFailed =>
          ended := true;
        case TemplatePanic =>
          ended := true;
        case WriteFailed =>
          if !page.ClubIndex? {
            ended := true;
          }
        case Written =>
      }
      i := i + 1;
    }
    if !ended {
      assert pages[..|pages|] == pages;
    }
  }

  // ---------------------------------------------------------------------------
  // The filters the index pages are generated from
  // ---------------------------------------------------------------------------

  /** generateClubIndex: the games of one club in one season, all of them. */
  method ClubIndexFilter(club: Club, season: Season) returns (f: GameFilter)
    ensures fresh(f) && f.Criteria() == GameCriteria([], [club], [season], [], None)
  {
    f := new GameFilter([], [club], [season], []);
  }

  /** generateLeagueIndex: the latest 20 games of one league. */
  method LeagueIndexFilter(league: League) returns (f: GameFilter)
    ensures fresh(f) && f.Criteria() == GameCriteria([], [], [], [league], Some(20))
  {
    f := new GameFilter([], [], [], [league]);
    f.SetLimit(20);
  }

  /** generateIndex: the latest 20 games of all. */
  method IndexFilter() returns (f: GameFilter)
    ensures fresh(f) && f.Criteria() == GameCriteria([], [], [], [], Some(20))
  {
    f := new GameFilter([], [], [], []);
    f.SetLimit(20);
  }

  /** generateIndices: the seasons of one league. */
  method LeagueSeasonsFilter(league: League) returns (f: SeasonFilter)
    ensures fresh(f) && f.Criteria() == SeasonCriteria(Some(league), None, None)
  {
    f := new SeasonFilter();
    f.SetLeague(league);
  }

  /** A club index selects the games the club played in that season: two
      conditions, $1 the club id and $2 the season id, and no limit. */
  lemma ClubIndexQuery(club: Club, season: Season)
    ensures var q := GamePlan(GameCriteria([], [club], [season], [], None));
      && q.where == [Clause(ClubPlayedIn, 1, 1), Clause(SeasonIdIn, 2, 1)]
      && q.args == [IntArg(club.id), IntArg(season.id)]
      && q.limit == None
  {
    assert IdArgs([]) == [] && LeagueArgs([]) == [];
    assert ClubArgs([club]) == [IntArg(club.id)] && SeasonArgs([season]) == [IntArg(season.id)];
  }

  /** A league index selects by the upper-cased league code alone, $1, and
      keeps 20 games. */
  lemma LeagueIndexQuery(league: League)
    ensures var q := GamePlan(GameCriteria([], [], [], [league], Some(20)));
      && q.where == [Clause(LeagueCodeIn, 1, 1)]
      && q.args == [TextArg(ToUpper(league.code))]
      && q.limit == Some(20)
  {
    assert IdArgs([]) == [] && ClubArgs([]) == [] && SeasonArgs([]) == [];
    assert LeagueArgs([league]) == [TextArg(ToUpper(league.code))];
  }

  /** The site index has no WHERE part and keeps 20 games. */
  lemma IndexQuery()
    ensures var q := GamePlan(GameCriteria([], [], [], [], Some(20)));
      && q.where == [] && q.args == [] && q.limit == Some(20)
      && Render(q) == GameBase + " ORDER BY " + GameOrder + " LIMIT 20"
  {
    assert IdArgs([]) == [] && ClubArgs([]) == [] && SeasonArgs([]) == [] && LeagueArgs([]) == [];
    assert FromInt(20) == "20" by {
      assert NatToString(2) == "2";
    }
  }

  /** The seasons of a league are selected by its code, $1, as given. */
  lemma LeagueSeasonsQuery(league: League)
    ensures var q := SeasonPlan(SeasonCriteria(Some(league), None, None));
      && q.where == [Clause(LeagueCodeIs, 1, 1)] && q.args == [TextArg(league.code)] && q.limit == None
  {
  }

  // ---------------------------------------------------------------------------
  // generateIndices: every club index, league by league
  // ---------------------------------------------------------------------------

  /** The club indexes of one season, in the order of its clubs. */
  function ClubPages(season: Season, clubs: seq<Club>): (r: seq<Page>)
    ensures |r| == |clubs| && forall k :: 0 <= k < |clubs| ==> r[k] == ClubIndex(clubs[k], season)
  {
    seq(|clubs|, k requires 0 <= k < |clubs| => ClubIndex(clubs[k], season))
  }

  /** The club indexes of the seasons, season by season. */
  function SeasonsPages(seasons: seq<Season>, clubsOf: Season -> seq<Club>): seq<Page>
  {
    if seasons == [] then []
    else
      var last := seasons[|seasons| - 1];
      SeasonsPages(seasons[..|seasons| - 1], clubsOf) + ClubPages(last, clubsOf(last))
  }

  /** The seasons the database lists for a league. */
  function SeasonsOf(league: League, seasonsFor: SeasonCriteria -> seq<Season>): seq<Season>
  {
    seasonsFor(SeasonCriteria(Some(league), None, None))
  }

  /** For each league in turn: its club indexes, then its league index. */
  function LeaguesPages(leagues: seq<League>, seasonsFor: SeasonCriteria -> seq<Season>,
                        clubsOf: Season -> seq<Club>): seq<Page>
  {
    if leagues == [] then []
    else
      var last := leagues[|leagues| - 1];
      LeaguesPages(leagues[..|leagues| - 1], seasonsFor, clubsOf)
      + SeasonsPages(SeasonsOf(last, seasonsFor), clubsOf) + [LeagueIndex(last)]
  }

  /** All the pages generateIndices regenerates, the site index last. */
  function IndicesPages(leagues: seq<League>, seasonsFor: SeasonCriteria -> seq<Season>,
                        clubsOf: Season -> seq<Club>): seq<Page>
  {
    LeaguesPages(leagues, seasonsFor, clubsOf) + [SiteIndex]
  }

  /** generateIndices: for each league, the seasons its filter selects, for
      each season its clubs, and for each club its index; then the league
      index; at the end the site index. The database answers are given by
      seasonsFor and clubsOf. */
  method IndicesPlan(leagues: seq<League>, seasonsFor: SeasonCriteria -> seq<Season>, clubsOf: Season -> seq<Club>)
    returns (pages: seq<Page>)
    ensures pages == IndicesPages(leagues, seasonsFor, clubsOf)
  {
    pages := [];
    for i := 0 to |leagues|
      invariant pages == LeaguesPages(leagues[..i], seasonsFor, clubsOf)
    {
      var league := leagues[i];
      var filter := LeagueSeasonsFilter(league);
      var seasons := seasonsFor(filter.Criteria());
      var more := SeasonsPlan(seasons, clubsOf);
      assert leagues[..i + 1] == leagues[..i] + [league];
      pages := pages + more + [LeagueIndex(league)];
    }
    assert leagues[..|leagues|] == leagues;
    pages := pages + [SiteIndex];
  }

  /** The inner two loops of generateIndices, for the seasons of one league. */
  method SeasonsPlan(seasons: seq<Season>, clubsOf: Season -> seq<Club>) returns (pages: seq<Page>)
    ensures pages == SeasonsPages(seasons, clubsOf)
  {
    pages := [];
    for j := 0 to |seasons|
      invariant pages == SeasonsPages(seasons[..j], clubsOf)
    {
      var season := seasons[j];
      var clubs := clubsOf(season);
      var more := [];
      for k := 0 to |clubs|
        invariant more == ClubPages(season, clubs[..k])
      {
        more := more + [ClubIndex(clubs[k], season)];
      }
      assert clubs[..|clubs|] == clubs;
      assert seasons[..j + 1] == seasons[..j] + [season];
      pages := pages + more;
    }
    assert seasons[..|seasons|] == seasons;
  }

  lemma {:induction false} SeasonsPagesMembers(seasons: seq<Season>, clubsOf: Season -> seq<Club>, p: Page)
    ensures p in SeasonsPages(seasons, clubsOf) <==> p.ClubIndex? && p.season in seasons && p.club in clubsOf(p.season)
    decreases |seasons|
  {
    if seasons != [] {
      var init, last := seasons[..|seasons| - 1], seasons[|seasons| - 1];
      SeasonsPagesMembers(init, clubsOf, p);
      assert seasons == init + [last];
      var cp := ClubPages(last, clubsOf(last));
      if p in cp {
        var k :| 0 <= k < |cp| && cp[k] == p;
        assert p.club == clubsOf(last)[k];
      }
      if p.ClubIndex? && p.season == last && p.club in clubsOf(last) {
        var k :| 0 <= k < |clubsOf(last)| && clubsOf(last)[k] == p.club;
        assert cp[k] == p;
      }
    }
  }

  /** generateIndices regenerates the club index of every club of every season
      of every league, the league index of every league, and nothing else
      before the site index. */
  lemma {:induction false} IndicesPagesMembers(leagues: seq<League>, seasonsFor: SeasonCriteria -> seq<Season>,
                                               clubsOf: Season -> seq<Club>, p: Page)
    ensures p in LeaguesPages(leagues, seasonsFor, clubsOf) <==>
      || (p.LeagueIndex? && p.league in leagues)
      || (p.ClubIndex? && exists l :: l in leagues && p.season in SeasonsOf(l, seasonsFor) && p.club in clubsOf(p.season))
    decreases |leagues|
  {
    if leagues != [] {
      var init, last := leagues[..|leagues| - 1], leagues[|leagues| - 1];
      IndicesPagesMembers(init, seasonsFor, clubsOf, p);
      SeasonsPagesMembers(SeasonsOf(last, seasonsFor), clubsOf, p);
      assert leagues == init + [last];
      if p.ClubIndex? && (exists l :: l in leagues && p.season in SeasonsOf(l, seasonsFor) && p.club in clubsOf(p.season)) {
        var l :| l in leagues && p.season in SeasonsOf(l, seasonsFor) && p.club in clubsOf(p.season);
        if l != last {
          assert l in init;
        }
      }
    }
  }

  /** The site index is regenerated once, after everything else. */
  lemma SiteIndexLast(leagues: seq<League>, seasonsFor: SeasonCriteria -> seq<Season>, clubsOf: Season -> seq<Club>)
    ensures var pages := IndicesPages(leagues, seasonsFor, clubsOf);
      pages[|pages| - 1] == SiteIndex && SiteIndex !in pages[..|pages| - 1]
  {
    var pages := IndicesPages(leagues, seasonsFor, clubsOf);
    IndicesPagesMembers(leagues, seasonsFor, clubsOf, SiteIndex);
    assert pages[..|pages| - 1] == LeaguesPages(leagues, seasonsFor, clubsOf);
  }
}
