/** The records of the league database (internal/models.go). They are plain
    values: Go copies them, compares them with == and uses them as map keys. */
module Models {

  datatype League = League(sport: string, code: string, name: string)

  datatype Season = Season(id: int, league: League, year: int, kind: string, exhibition: bool)

  datatype Club = Club(id: int, iteration: int, represents: string, nickname: string)

  datatype Game = Game(
    id: int,
    season: Season,
    date: string,
    title: string,
    venue: string,
    home: Club,
    homeScore: int,
    away: Club,
    awayScore: int)

  datatype Resource = Resource(id: int, title: string, url: string)

  /** The Go zero values, which an unset field of a filter holds. */
  const ZeroLeague := League("", "", "")
  const ZeroClub := Club(0, 0, "", "")
}
