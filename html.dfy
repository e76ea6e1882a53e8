/** The data the page templates are given (internal/html.go): where each page
    lives, how far its breadcrumb climbs back to the site root, and the
    navigation sections of the sidebars. The templates themselves, and the
    text they produce, are not part of this model. */
module Html {
  import opened Models
  import opened Text

  // ---------------------------------------------------------------------------
  // Page paths
  // ---------------------------------------------------------------------------

  /** Path segments joined by slashes. */
  function Slashed(segments: seq<string>): string
    requires |segments| > 0
  {
    if |segments| == 1 then segments[0] else segments[0] + "/" + Slashed(segments[1..])
  }

  /** The page of one game: /<code>/<year>/<type>/games/<id>.html */
  function GamePath(game: Game): string
  {
    "/" + Slashed([game.season.league.code, FromInt(game.season.year), game.season.kind,
                   "games", FromInt(game.id) + ".html"])
  }

  /** The page of one club in one season: /<code>/<year>/<type>/teams/<id>.html */
  function ClubPath(club: Club, season: Season): string
  {
    "/" + Slashed([season.league.code, FromInt(season.year), season.kind, "teams", FromInt(club.id) + ".html"])
  }

  /** The page of one league: /<code>/index.html */
  function LeaguePath(league: League): string
  {
    "/" + Slashed([league.code, "index.html"])
  }

  /** The site index. */
  function IndexPath(): string
  {
    "/index.html"
  }

  /** A path segment: text without a slash. League codes and season types
      are expected to be such; nothing in the program checks it. */
  predicate Plain(s: string)
  {
    '/' !in s
  }

  /** How many directories below the site root a page lies: its segments
      less the empty one before the first slash and the file name. */
  function Depth(path: string): int
  {
    |Split(path, '/')| - 2
  }

  lemma FromIntPlain(i: int)
    ensures Plain(FromInt(i)) && Plain(FromInt(i) + ".html")
  {
    ParseFromInt(i);
    assert forall k :: 0 <= k < |FromInt(i) + ".html"| ==> (FromInt(i) + ".html")[k] != '/';
  }

  lemma NamesPlain()
    ensures Plain("games") && Plain("teams") && Plain("index.html")
  {
  }

  /** Splitting slash-joined segments gives them back. */
  lemma {:induction false} SplitSlashed(segments: seq<string>)
    requires |segments| > 0 && forall k :: 0 <= k < |segments| ==> Plain(segments[k])
    ensures Split(Slashed(segments), '/') == segments
    decreases |segments|
  {
    if |segments| == 1 {
      assert Plain(segments[0]);
    } else {
      SplitSlashed(segments[1..]);
      assert Slashed(segments) == segments[0] + ['/'] + Slashed(segments[1..]);
      SplitAfter(segments[0], '/', Slashed(segments[1..]));
      assert [segments[0]] + segments[1..] == segments;
    }
  }

  /** A path from the root: the empty segment, then the others. */
  lemma SplitRooted(segments: seq<string>)
    requires |segments| > 0 && forall k :: 0 <= k < |segments| ==> Plain(segments[k])
    ensures Split("/" + Slashed(segments), '/') == [""] + segments
  {
    SplitSlashed(segments);
    assert "/" + Slashed(segments) == "" + ['/'] + Slashed(segments);
    SplitAfter("", '/', Slashed(segments));
  }

  /** A page four directories below the root. */
  lemma SplitDeepPage(a: string, b: string, c: string, d: string, file: string)
    requires Plain(a) && Plain(b) && Plain(c) && Plain(d) && Plain(file)
    ensures Split("/" + Slashed([a, b, c, d, file]), '/') == ["", a, b, c, d, file]
  {
    var segments := [a, b, c, d, file];
    SplitRooted(segments);
    assert [""] + segments == ["", a, b, c, d, file];
  }

  /** A game page lies in <code>/<year>/<type>/games and is named by the game id. */
  lemma GamePathSegments(game: Game)
    requires Plain(game.season.league.code) && Plain(game.season.kind)
    ensures Split(GamePath(game), '/')
         == ["", game.season.league.code, FromInt(game.season.year), game.season.kind, "games",
             FromInt(game.id) + ".html"]
  {
    FromIntPlain(game.season.year);
    FromIntPlain(game.id);
    NamesPlain();
    SplitDeepPage(game.season.league.code, FromInt(game.season.year), game.season.kind, "games",
                  FromInt(game.id) + ".html");
  }

  /** A club page lies in <code>/<year>/<type>/teams and is named by the club id. */
  lemma ClubPathSegments(club: Club, season: Season)
    requires Plain(season.league.code) && Plain(season.kind)
    ensures Split(ClubPath(club, season), '/')
         == ["", season.league.code, FromInt(season.year), season.kind, "teams", FromInt(club.id) + ".html"]
  {
    FromIntPlain(season.year);
    FromIntPlain(club.id);
    NamesPlain();
    SplitDeepPage(season.league.code, FromInt(season.year), season.kind, "teams", FromInt(club.id) + ".html");
  }

  /** A league page lies in the directory named by the league code. */
  lemma LeaguePathSegments(league: League)
    requires Plain(league.code)
    ensures Split(LeaguePath(league), '/') == ["", league.code, "index.html"]
  {
    NamesPlain();
    SplitRooted([league.code, "index.html"]);
  }

  /** The site index lies at the root. */
  lemma IndexPathSegments()
    ensures Split(IndexPath(), '/') == ["", "index.html"]
  {
    NamesPlain();
    SplitRooted(["index.html"]);
  }

  lemma FileNameInjective(a: int, b: int)
    requires FromInt(a) + ".html" == FromInt(b) + ".html"
    ensures a == b
  {
    var x, y := FromInt(a) + ".html", FromInt(b) + ".html";
    assert x[..|x| - 5] == FromInt(a) && y[..|y| - 5] == FromInt(b);
    FromIntInjective(a, b);
  }

  /** Two games share a page exactly when they have the same id in seasons
      with the same league code, year and type. */
  lemma GamePathInjective(g: Game, h: Game)
    requires Plain(g.season.league.code) && Plain(g.season.kind)
    requires Plain(h.season.league.code) && Plain(h.season.kind)
    ensures GamePath(g) == GamePath(h) <==>
      && g.id == h.id && g.season.league.code == h.season.league.code
      && g.season.year == h.season.year && g.season.kind == h.season.kind
  {
    if GamePath(g) == GamePath(h) {
      GamePathSegments(g);
      GamePathSegments(h);
      var sg, sh := Split(GamePath(g), '/'), Split(GamePath(h), '/');
      assert sg[2] == sh[2] && sg[5] == sh[5];
      FromIntInjective(g.season.year, h.season.year);
      FileNameInjective(g.id, h.id);
    }
  }

  /** A club page is determined by the club id and the season's league code,
      year and type: the club's iteration, names and the season id play no part. */
  lemma ClubPathInjective(c: Club, s: Season, d: Club, t: Season)
    requires Plain(s.league.code) && Plain(s.kind) && Plain(t.league.code) && Plain(t.kind)
    ensures ClubPath(c, s) == ClubPath(d, t) <==>
      && c.id == d.id && s.league.code == t.league.code && s.year == t.year && s.kind == t.kind
  {
    if ClubPath(c, s) == ClubPath(d, t) {
      ClubPathSegments(c, s);
      ClubPathSegments(d, t);
      var sc, sd := Split(ClubPath(c, s), '/'), Split(ClubPath(d, t), '/');
      assert sc[2] == sd[2] && sc[5] == sd[5];
      FromIntInjective(s.year, t.year);
      FileNameInjective(c.id, d.id);
    }
  }

  /** Game pages and club pages never share a path. */
  lemma GameAndClubPathsDiffer(g: Game, c: Club, s: Season)
    requires Plain(g.season.league.code) && Plain(g.season.kind) && Plain(s.league.code) && Plain(s.kind)
    ensures GamePath(g) != ClubPath(c, s)
  {
    GamePathSegments(g);
    ClubPathSegments(c, s);
    assert Split(GamePath(g), '/')[4] != Split(ClubPath(c, s), '/')[4];
  }

  /** League pages never share a path with each other for different codes,
      nor with the site index. */
  lemma LeaguePathInjective(l: League, m: League)
    requires Plain(l.code) && Plain(m.code)
    ensures LeaguePath(l) == LeaguePath(m) <==> l.code == m.code
    ensures LeaguePath(l) != IndexPath()
  {
    LeaguePathSegments(l);
    LeaguePathSegments(m);
    IndexPathSegments();
    if LeaguePath(l) == LeaguePath(m) {
      assert Split(LeaguePath(l), '/')[1] == Split(LeaguePath(m), '/')[1];
    }
    assert |Split(LeaguePath(l), '/')| != |Split(IndexPath(), '/')|;
  }

  // ---------------------------------------------------------------------------
  // Breadcrumbs
  // ---------------------------------------------------------------------------

  datatype Link = Link(href: string, display: string)

  /** PathToRoot is the relative way back to the site root; the links are
      the zero link where a page sets none. */
  datatype Breadcrumb = Breadcrumb(pathToRoot: string, league: Link, home: Link, away: Link)

  const NoLink := Link("", "")

  function Crumbs(pathToRoot: string): Breadcrumb
  {
    Breadcrumb(pathToRoot, NoLink, NoLink, NoLink)
  }

  /** n steps up: n times "..", joined by slashes, or "." for none. */
  function Up(n: nat): string
  {
    if n == 0 then "." else Slashed(seq(n, _ => ".."))
  }

  /** Up(n) is n segments "..". */
  lemma UpSegments(n: nat)
    requires n > 0
    ensures Split(Up(n), '/') == seq(n, _ => "..")
  {
    assert Plain("..");
    SplitSlashed(seq(n, _ => ".."));
  }

  function ClubName(club: Club): string
  {
    club.represents + " " + club.nickname
  }

  /** The breadcrumb of a game page: the league, and both clubs in the
      game's season. */
  function GameCrumbs(game: Game): Breadcrumb
  {
    Breadcrumb("../../../..",
      Link(LeaguePath(game.season.league), game.season.league.name),
      Link(ClubPath(game.home, game.season), ClubName(game.home)),
      Link(ClubPath(game.away, game.season), ClubName(game.away)))
  }

  /** The breadcrumb of a club page, and of its sidebar: the league. */
  function ClubCrumbs(season: Season): Breadcrumb
  {
    Breadcrumb("../../../..", Link(LeaguePath(season.league), season.league.name), NoLink, NoLink)
  }

  const LeagueCrumbs := Crumbs("..")

  const IndexCrumbs := Crumbs(".")

  lemma FourUp()
    ensures Up(4) == "../../../.."
  {
    var dots := seq(4, _ => "..");
    assert dots == ["..", "..", "..", ".."];
    assert dots[1..] == ["..", "..", ".."] && dots[2..] == ["..", ".."] && dots[3..] == [".."];
    assert Slashed(dots[2..]) == "../..";
    assert Slashed(dots[1..]) == "../../..";
  }

  /** A game page climbs back to the root exactly as deep as it lies, and its
      links lead to its league's page and to both clubs' pages for the season
      of the game. */
  lemma GameCrumbsReachRoot(game: Game)
    requires Plain(game.season.league.code) && Plain(game.season.kind)
    ensures GameCrumbs(game).pathToRoot == Up(Depth(GamePath(game)))
    ensures GameCrumbs(game).home.href == ClubPath(game.home, game.season)
    ensures GameCrumbs(game).away.href == ClubPath(game.away, game.season)
    ensures GameCrumbs(game).league.href == LeaguePath(game.season.league)
  {
    GamePathSegments(game);
    FourUp();
  }

  /** A club page climbs back to the root exactly as deep as it lies. */
  lemma ClubCrumbsReachRoot(club: Club, season: Season)
    requires Plain(season.league.code) && Plain(season.kind)
    ensures ClubCrumbs(season).pathToRoot == Up(Depth(ClubPath(club, season)))
  {
    ClubPathSegments(club, season);
    FourUp();
  }

  /** A league page is one directory deep. */
  lemma LeagueCrumbsReachRoot(league: League)
    requires Plain(league.code)
    ensures LeagueCrumbs.pathToRoot == Up(Depth(LeaguePath(league)))
  {
    LeaguePathSegments(league);
  }

  /** The site index is at the root. */
  lemma IndexCrumbsReachRoot()
    ensures IndexCrumbs.pathToRoot == Up(Depth(IndexPath()))
  {
    IndexPathSegments();
  }

  // ---------------------------------------------------------------------------
  // Sorting, as sort.Slice does it
  // ---------------------------------------------------------------------------

  /** No element is less than the one before it. */
  ghost predicate Ordered<T>(s: seq<T>, less: (T, T) -> bool)
  {
    forall k :: 0 < k < |s| ==> !less(s[k], s[k - 1])
  }

  /** sort.Slice: reorders a so that no element is less than its predecessor.
      The sort is not stable, so this and the permutation are all it promises.
      Here it is an insertion sort by swaps. */
  method SortSlice<T(!new)>(a: array<T>, less: (T, T) -> bool)
    requires forall x, y :: less(x, y) ==> !less(y, x)
    modifies a
    ensures Ordered(a[..], less)
    ensures multiset(a[..]) == multiset(old(a[..]))
  {
    for i := 0 to a.Length
      invariant Ordered(a[..i], less)
      invariant multiset(a[..]) == multiset(old(a[..]))
    {
      Insert(a, i, less);
    }
    assert a[..] == a[..a.Length];
  }

  /** One step of the insertion sort: a[i] moves left past every element it
      is less than. */
  method Insert<T(!new)>(a: array<T>, i: int, less: (T, T) -> bool)
    requires forall x, y :: less(x, y) ==> !less(y, x)
    requires 0 <= i < a.Length && Ordered(a[..i], less)
    modifies a
    ensures Ordered(a[..i + 1], less)
    ensures multiset(a[..]) == multiset(old(a[..]))
  {
    var j := i;
    while j > 0 && less(a[j], a[j - 1])
      invariant 0 <= j <= i
      invariant forall k :: 0 < k < j ==> !less(a[k], a[k - 1])
      invariant forall k :: j < k <= i ==> !less(a[k], a[k - 1])
      invariant 0 < j < i ==> !less(a[j + 1], a[j - 1])
      invariant multiset(a[..]) == multiset(old(a[..]))
    {
      Swap(a, j);
      j := j - 1;
    }
  }

  /** Exchanges a[j - 1] and a[j]. */
  method Swap<T>(a: array<T>, j: int)
    requires 0 < j < a.Length
    modifies a
    ensures a[..] == old(a[..])[j - 1 := old(a[j])][j := old(a[j - 1])]
    ensures multiset(a[..]) == multiset(old(a[..]))
  {
    a[j - 1], a[j] := a[j], a[j - 1];
  }

  /** Adjacent years descending make all years descending. */
  lemma {:induction false} YearsDescending(s: seq<Season>)
    requires Ordered(s, ByYearDescending)
    ensures forall i, j :: 0 <= i < j < |s| ==> s[j].year <= s[i].year
    decreases |s|
  {
    if |s| > 1 {
      YearsDescending(s[..|s| - 1]);
      assert forall i, j :: 0 <= i < j < |s| - 1 ==> s[j].year <= s[i].year by {
        assert forall k :: 0 <= k < |s| - 1 ==> s[..|s| - 1][k] == s[k];
      }
      assert !ByYearDescending(s[|s| - 1], s[|s| - 2]);
    }
  }

  /** Adjacent keys ascending make all keys ascending. */
  lemma {:induction false} KeysAscending<T>(s: seq<T>, key: T -> string)
    requires forall k :: 0 < k < |s| ==> !LexLess(key(s[k]), key(s[k - 1]))
    ensures forall i, j :: 0 <= i < j < |s| ==> !LexLess(key(s[j]), key(s[i]))
    decreases |s|
  {
    if |s| > 1 {
      var init := s[..|s| - 1];
      KeysAscending(init, key);
      forall i | 0 <= i < |s| - 1
        ensures !LexLess(key(s[|s| - 1]), key(s[i]))
      {
        if i < |s| - 2 {
          assert init[i] == s[i] && init[|s| - 2] == s[|s| - 2];
          LexNotAfterTransitive(key(s[i]), key(s[|s| - 2]), key(s[|s| - 1]));
        }
      }
      assert forall i, j :: 0 <= i < j < |s| - 1 ==> !LexLess(key(s[j]), key(s[i])) by {
        assert forall k :: 0 <= k < |s| - 1 ==> init[k] == s[k];
      }
    }
  }

  // ---------------------------------------------------------------------------
  // Sidebars
  // ---------------------------------------------------------------------------

  datatype NavSection = NavSection(header: string, links: seq<Link>)

  datatype Sidebar = Sidebar(crumbs: Breadcrumb, sections: seq<NavSection>)

  /** The seasons without the exhibition flag, in their order. */
  function Regular(seasons: seq<Season>): seq<Season>
  {
    if seasons == [] then []
    else
      var last := seasons[|seasons| - 1];
      Regular(seasons[..|seasons| - 1]) + (if last.exhibition then [] else [last])
  }

  /** The seasons with the exhibition flag, in their order. */
  function Exhibition(seasons: seq<Season>): seq<Season>
  {
    if seasons == [] then []
    else
      var last := seasons[|seasons| - 1];
      Exhibition(seasons[..|seasons| - 1]) + (if last.exhibition then [last] else [])
  }

  /** The first loop of clubSidebar: each season goes to exactly one side. */
  method Partition(seasons: seq<Season>) returns (regular: seq<Season>, exhibition: seq<Season>)
    ensures regular == Regular(seasons) && exhibition == Exhibition(seasons)
  {
    regular, exhibition := [], [];
    for i := 0 to |seasons|
      invariant regular == Regular(seasons[..i]) && exhibition == Exhibition(seasons[..i])
    {
      assert seasons[..i + 1][..i] == seasons[..i];
      if seasons[i].exhibition {
        exhibition := exhibition + [seasons[i]];
      } else {
        regular := regular + [seasons[i]];
      }
    }
    assert seasons[..|seasons|] == seasons;
  }

  /** Every season lands on exactly one side: the exhibition side holds the
      flagged ones, the regular side the others, and together they are the
      input. */
  lemma {:induction false} PartitionExact(seasons: seq<Season>)
    ensures multiset(Regular(seasons)) + multiset(Exhibition(seasons)) == multiset(seasons)
    ensures forall s :: s in Regular(seasons) ==> !s.exhibition
    ensures forall s :: s in Exhibition(seasons) ==> s.exhibition
    decreases |seasons|
  {
    if seasons != [] {
      var init, last := seasons[..|seasons| - 1], seasons[|seasons| - 1];
      PartitionExact(init);
      assert seasons == init + [last];
    }
  }

  /** The sort order of clubSidebar: later years first. */
  function ByYearDescending(x: Season, y: Season): bool
  {
    y.year < x.year
  }

  /** A season's link on a club's sidebar: the club's page for that season. */
  function SeasonLink(club: Club, season: Season, exhibition: bool): Link
  {
    Link(ClubPath(club, season),
         if exhibition then FromInt(season.year) + " " + season.league.name + " " + season.kind
         else FromInt(season.year) + " " + season.league.name + " Season")
  }

  function SeasonLinks(club: Club, seasons: seq<Season>, exhibition: bool): (r: seq<Link>)
    ensures |r| == |seasons|
  {
    seq(|seasons|, k requires 0 <= k < |seasons| => SeasonLink(club, seasons[k], exhibition))
  }

  /** links are the links of some ordering of the seasons with later years first. */
  ghost predicate ListsByYear(links: seq<Link>, club: Club, seasons: seq<Season>, exhibition: bool)
  {
    exists order: seq<Season> ::
      && multiset(order) == multiset(seasons)
      && (forall i, j :: 0 <= i < j < |order| ==> order[j].year <= order[i].year)
      && links == SeasonLinks(club, order, exhibition)
  }

  /** One section of clubSidebar: the seasons sorted by year, latest first,
      each linked to the club's page for it. */
  method SeasonSection(header: string, club: Club, seasons: seq<Season>, exhibition: bool)
    returns (section: NavSection)
    ensures section.header == header
    ensures ListsByYear(section.links, club, seasons, exhibition)
  {
    var sorted := SortByYear(seasons);
    var links := FillSeasonLinks(club, sorted, exhibition);
    ghost var order := sorted[..];
    assert multiset(order) == multiset(seasons);
    assert forall i, j :: 0 <= i < j < |order| ==> order[j].year <= order[i].year;
    assert links == SeasonLinks(club, order, exhibition);
    section := NavSection(header, links);
  }

  /** The seasons copied into a fresh slice and sorted by year, latest first. */
  method SortByYear(seasons: seq<Season>) returns (sorted: array<Season>)
    ensures fresh(sorted)
    ensures multiset(sorted[..]) == multiset(seasons)
    ensures forall i, j :: 0 <= i < j < sorted.Length ==> sorted[j].year <= sorted[i].year
  {
    sorted := new Season[|seasons|](k requires 0 <= k < |seasons| => seasons[k]);
    assert sorted[..] == seasons;
    SortSlice(sorted, ByYearDescending);
    YearsDescending(sorted[..]);
  }

  /** The link loop of a clubSidebar section, filling a slice by index. */
  method FillSeasonLinks(club: Club, sorted: array<Season>, exhibition: bool) returns (r: seq<Link>)
    ensures r == SeasonLinks(club, sorted[..], exhibition)
  {
    var links := new Link[sorted.Length](_ => NoLink);
    for i := 0 to sorted.Length
      invariant forall k :: 0 <= k < i ==> links[k] == SeasonLink(club, sorted[k], exhibition)
    {
      links[i] := SeasonLink(club, sorted[i], exhibition);
    }
    r := links[..];
  }

  /** clubSidebar: the regular seasons under "Other Seasons", then the
      exhibition seasons under "See also", each section only when it has
      seasons, each sorted by year, latest first. */
  method ClubSidebar(club: Club, seasons: seq<Season>) returns (bar: Sidebar)
    ensures bar.crumbs == Crumbs("../../../..")
    ensures |bar.sections| == (if Regular(seasons) == [] then 0 else 1) + (if Exhibition(seasons) == [] then 0 else 1)
    ensures Regular(seasons) != [] ==>
      && bar.sections[0].header == "Other Seasons"
      && ListsByYear(bar.sections[0].links, club, Regular(seasons), false)
    ensures Exhibition(seasons) != [] ==>
      && bar.sections[|bar.sections| - 1].header == "See also"
      && ListsByYear(bar.sections[|bar.sections| - 1].links, club, Exhibition(seasons), true)
  {
    var regular, exhibition := Partition(seasons);
    var sections := [];
    if |regular| != 0 {
      var section := SeasonSection("Other Seasons", club, regular, false);
      sections := [section];
    }
    if |exhibition| != 0 {
      var section := SeasonSection("See also", club, exhibition, true);
      sections := sections + [section];
      assert sections[|sections| - 1] == section;
    }
    bar := Sidebar(Crumbs("../../../.."), sections);
  }

  function TeamLinks(season: Season, clubs: seq<Club>): (r: seq<Link>)
    ensures |r| == |clubs|
  {
    seq(|clubs|, k requires 0 <= k < |clubs| => Link(ClubPath(clubs[k], season), ClubName(clubs[k])))
  }

  /** The sort key of leagueSidebar. */
  function RepresentsKey(club: Club): string
  {
    ToLower(club.represents)
  }

  function ByRepresents(x: Club, y: Club): bool
  {
    LexLess(RepresentsKey(x), RepresentsKey(y))
  }

  /** leagueSidebar: one "Teams" section linking every club's page for the
      season, ordered by the lower-cased place the club represents. Like the
      source, it sorts the caller's clubs in place. */
  method LeagueSidebar(season: Season, clubs: array<Club>) returns (bar: Sidebar)
    modifies clubs
    ensures multiset(clubs[..]) == multiset(old(clubs[..]))
    ensures forall i, j :: 0 <= i < j < clubs.Length ==> !LexLess(RepresentsKey(clubs[j]), RepresentsKey(clubs[i]))
    ensures bar == Sidebar(LeagueCrumbs, [NavSection("Teams", TeamLinks(season, clubs[..]))])
  {
    var links := new Link[clubs.Length](_ => NoLink);
    forall x: Club, y: Club
      ensures ByRepresents(x, y) ==> !ByRepresents(y, x)
    {
      LexLessAsymmetric(RepresentsKey(x), RepresentsKey(y));
    }
    SortSlice(clubs, ByRepresents);
    KeysAscending(clubs[..], RepresentsKey);
    ghost var order := clubs[..];
    for i := 0 to clubs.Length
      invariant clubs[..] == order
      invariant links[..i] == TeamLinks(season, clubs[..i])
    {
      links[i] := Link(ClubPath(clubs[i], season), ClubName(clubs[i]));
      assert links[..i + 1] == links[..i] + [links[i]];
    }
    assert links[..] == links[..clubs.Length] && clubs[..] == clubs[..clubs.Length];
    bar := Sidebar(LeagueCrumbs, [NavSection("Teams", links[..])]);
  }

  function LeagueLinks(leagues: seq<League>): (r: seq<Link>)
    ensures |r| == |leagues|
  {
    seq(|leagues|, k requires 0 <= k < |leagues| =>
      Link(LeaguePath(leagues[k]), leagues[k].name + " " + leagues[k].sport))
  }

  /** The sort key of indexSidebar. */
  function NameKey(league: League): string
  {
    ToLower(league.name)
  }

  function ByName(x: League, y: League): bool
  {
    LexLess(NameKey(x), NameKey(y))
  }

  /** indexSidebar: one "Leagues" section linking every league's page,
      ordered by the lower-cased league name. It too sorts the caller's
      leagues in place. */
  method IndexSidebar(leagues: array<League>) returns (bar: Sidebar)
    modifies leagues
    ensures multiset(leagues[..]) == multiset(old(leagues[..]))
    ensures forall i, j :: 0 <= i < j < leagues.Length ==> !LexLess(NameKey(leagues[j]), NameKey(leagues[i]))
    ensures bar == Sidebar(IndexCrumbs, [NavSection("Leagues", LeagueLinks(leagues[..]))])
  {
    var links := new Link[leagues.Length](_ => NoLink);
    forall x: League, y: League
      ensures ByName(x, y) ==> !ByName(y, x)
    {
      LexLessAsymmetric(NameKey(x), NameKey(y));
    }
    SortSlice(leagues, ByName);
    KeysAscending(leagues[..], NameKey);
    ghost var order := leagues[..];
    for i := 0 to leagues.Length
      invariant leagues[..] == order
      invariant links[..i] == LeagueLinks(leagues[..i])
    {
      links[i] := Link(LeaguePath(leagues[i]), leagues[i].name + " " + leagues[i].sport);
      assert links[..i + 1] == links[..i] + [links[i]];
    }
    assert links[..] == links[..leagues.Length] && leagues[..] == leagues[..leagues.Length];
    bar := Sidebar(IndexCrumbs, [NavSection("Leagues", links[..])]);
  }
}
