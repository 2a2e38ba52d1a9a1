/** The repository's row types and their mappers to and from the domain
    model. Posters store their genres as one comma-separated string. */
module Dao {

  // --------------------------------------------------------- strings.Split/Join

  /** `strings.Split(s, string(sep))`: the pieces between separators; the
      empty string and a string without separator give one piece. */
  function Split(s: string, sep: char): (parts: seq<string>)
    ensures |parts| >= 1
    ensures forall i :: 0 <= i < |parts| ==> sep !in parts[i]
    ensures sep !in s ==> parts == [s]
  {
    if s == [] then [""]
    else if s[0] == sep then [""] + Split(s[1..], sep)
    else
      var rest := Split(s[1..], sep);
      assert sep !in [s[0]] + rest[0];
      assert [s[0]] + s[1..] == s;
      [[s[0]] + rest[0]] + rest[1..]
  }

  /** `strings.Join(parts, string(sep))`: no pieces give the empty string;
      otherwise the first piece leads, and a second piece brings a separator. */
  function Join(parts: seq<string>, sep: char): (s: string)
    ensures parts == [] ==> s == ""
    ensures |parts| >= 1 ==> parts[0] <= s
    ensures |parts| >= 2 ==> |s| > |parts[0]| && s[|parts[0]|] == sep
  {
    if |parts| == 0 then ""
    else if |parts| == 1 then parts[0]
    else parts[0] + [sep] + Join(parts[1..], sep)
  }

  /** Splitting a string with a separator after a separator-free head
      yields the head and then the pieces of the tail. */
  lemma {:induction false} SplitAfterHead(head: string, sep: char, tail: string)
    requires sep !in head
    ensures Split(head + [sep] + tail, sep) == [head] + Split(tail, sep)
  {
    if head == [] {
      assert head + [sep] + tail == [sep] + tail;
      assert ([sep] + tail)[1..] == tail;
    } else {
      var s := head + [sep] + tail;
      assert s[0] == head[0];
      assert s[1..] == head[1..] + [sep] + tail;
      SplitAfterHead(head[1..], sep, tail);
      assert [head[0]] + head[1..] == head;
    }
  }

  /** Join then Split gives back a non-empty list of separator-free pieces. */
  lemma {:induction false} SplitJoin(parts: seq<string>, sep: char)
    requires |parts| >= 1
    requires forall i :: 0 <= i < |parts| ==> sep !in parts[i]
    ensures Split(Join(parts, sep), sep) == parts
  {
    if |parts| > 1 {
      SplitJoin(parts[1..], sep);
      SplitAfterHead(parts[0], sep, Join(parts[1..], sep));
      assert [parts[0]] + parts[1..] == parts;
    }
  }

  /** Joining after a leading piece puts one separator after it. */
  lemma JoinCons(head: string, rest: seq<string>, sep: char)
    requires |rest| >= 1
    ensures Join([head] + rest, sep) == head + [sep] + Join(rest, sep)
  {
    assert ([head] + rest)[1..] == rest;
  }

  /** Joining pieces whose first one starts with `c` is `c` followed by
      joining the pieces without it. */
  lemma JoinFirstChar(c: char, rest: seq<string>, sep: char)
    requires |rest| >= 1
    ensures Join([[c] + rest[0]] + rest[1..], sep) == [c] + Join(rest, sep)
  {
    if |rest| > 1 {
      JoinCons([c] + rest[0], rest[1..], sep);
      JoinCons(rest[0], rest[1..], sep);
      assert [rest[0]] + rest[1..] == rest;
    }
  }

  /** Split then Join gives back any string. */
  lemma {:induction false} JoinSplit(s: string, sep: char)
    ensures Join(Split(s, sep), sep) == s
  {
    if s == [] {
    } else if s[0] == sep {
      JoinSplit(s[1..], sep);
      JoinCons("", Split(s[1..], sep), sep);
      assert [sep] + s[1..] == s;
    } else {
      JoinSplit(s[1..], sep);
      JoinFirstChar(s[0], Split(s[1..], sep), sep);
      assert [s[0]] + s[1..] == s;
    }
  }

  // ------------------------------------------------------------------- lists

  datatype List = List(id: int, parentID: int, name: string, userID: int)

  datatype ListDAO = ListDAO(id: int, parentID: int, name: string, userID: int)

  /** Read a stored list: storing it again gives back the row. */
  function MapListDAO(d: ListDAO): (l: List)
    ensures ReverseMapListDAO(l) == d
  {
    List(d.id, d.parentID, d.name, d.userID)
  }

  /** Store a list: every field is carried over. */
  function ReverseMapListDAO(l: List): (d: ListDAO)
    ensures d.id == l.id && d.parentID == l.parentID && d.name == l.name && d.userID == l.userID
  {
    ListDAO(l.id, l.parentID, l.name, l.userID)
  }

  /** The list mappers are mutual inverses. */
  lemma ListMappersInverse(d: ListDAO, l: List)
    ensures ReverseMapListDAO(MapListDAO(d)) == d
    ensures MapListDAO(ReverseMapListDAO(l)) == l
  {
  }

  // ----------------------------------------------------------------- posters

  const GenreSeparator := ','

  /** A poster; `createdAt` stands for the creation time, carried as is. */
  datatype Poster = Poster(id: int, name: string, year: int, genres: seq<string>, chrono: int, userID: int, createdAt: int)

  datatype PosterDAO = PosterDAO(id: int, name: string, year: int, genres: string, chrono: int, userID: int, createdAt: int)

  /** Read a stored poster: the genre string is split on commas. */
  function MapPosterDAO(d: PosterDAO): (p: Poster)
    ensures |p.genres| >= 1
    ensures forall i :: 0 <= i < |p.genres| ==> GenreSeparator !in p.genres[i]
  {
    Poster(d.id, d.name, d.year, Split(d.genres, GenreSeparator), d.chrono, d.userID, d.createdAt)
  }

  /** Store a poster: the genres are joined with commas. */
  function ReverseMapPosterDAO(p: Poster): (d: PosterDAO)
    ensures d.id == p.id && d.name == p.name && d.year == p.year
    ensures d.chrono == p.chrono && d.userID == p.userID && d.createdAt == p.createdAt
    ensures p.genres == [] ==> d.genres == ""
    ensures |p.genres| >= 1 ==> p.genres[0] <= d.genres
  {
    PosterDAO(p.id, p.name, p.year, Join(p.genres, GenreSeparator), p.chrono, p.userID, p.createdAt)
  }

  /** Genres that are separator-free make a poster survive storing and
      reading back, provided there is at least one of them; every other
      field is carried unchanged both ways. */
  lemma PosterRoundTrip(p: Poster)
    requires |p.genres| >= 1
    requires forall i :: 0 <= i < |p.genres| ==> GenreSeparator !in p.genres[i]
    ensures MapPosterDAO(ReverseMapPosterDAO(p)) == p
  {
    SplitJoin(p.genres, GenreSeparator);
  }

  /** Every stored row survives reading and storing back. */
  lemma PosterDAORoundTrip(d: PosterDAO)
    ensures ReverseMapPosterDAO(MapPosterDAO(d)) == d
  {
    JoinSplit(d.genres, GenreSeparator);
  }

  /** A poster without genres is stored as "" and reads back with the one
      genre "". */
  lemma EmptyGenresReadBackAsOneEmptyGenre(p: Poster)
    requires p.genres == []
    ensures ReverseMapPosterDAO(p).genres == ""
    ensures MapPosterDAO(ReverseMapPosterDAO(p)).genres == [""]
    ensures MapPosterDAO(ReverseMapPosterDAO(p)) != p
  {
  }

  /** The stored form of the genres g1, g2, g3, and its reading. */
  lemma ThreeGenres()
    ensures Join(["g1", "g2", "g3"], GenreSeparator) == "g1,g2,g3"
    ensures Split("g1,g2,g3", GenreSeparator) == ["g1", "g2", "g3"]
  {
    SplitJoin(["g1", "g2", "g3"], GenreSeparator);
  }

  // ------------------------------------------------------------------- users

  /** A user; `adminSecret` exists in the domain model only. */
  datatype User = User(id: int, name: string, login: string, role: string, password: string, adminSecret: string)

  datatype UserDAO = UserDAO(id: int, name: string, login: string, role: string, password: string)

  function MapUserDAO(d: UserDAO): (u: User)
    ensures u.adminSecret == ""
  {
    User(d.id, d.name, d.login, d.role, d.password, "")
  }

  /** Store a user: the admin secret is dropped, so reading the row back
      gives the user with an empty secret. */
  function ReverseMapUserDAO(u: User): (d: UserDAO)
    ensures MapUserDAO(d) == u.(adminSecret := "")
  {
    UserDAO(u.id, u.name, u.login, u.role, u.password)
  }

  /** A stored user survives reading and storing back; a user survives
      storing and reading back except for the admin secret, which comes
      back empty. */
  lemma UserMappersRoundTrip(d: UserDAO, u: User)
    ensures ReverseMapUserDAO(MapUserDAO(d)) == d
    ensures MapUserDAO(ReverseMapUserDAO(u)) == u.(adminSecret := "")
    ensures MapUserDAO(ReverseMapUserDAO(u)) == u <==> u.adminSecret == ""
  {
  }
}
