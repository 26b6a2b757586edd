/** The report script's analysis engine (analisis_libros.py): per-book
    averages, the genre catalog, the genre ranking, the top genre and the top
    three books, globally and inside one chosen genre.

    The books are the rows of the data frame the API fills. A row's `genres`
    and `ratings` cells hold what the JSON held; the cases the script treats
    differently are kept apart:
    - `genres` is a list (`Some`) or anything else, null included (`None`);
    - a genre entry is a dict, with or without its `id` and `name` keys, or
      some other value;
    - `ratings` is a list (`Some`) or a false value such as null (`None`); a
      rating has a `score` key or it has not. */
module BookAnalysis {
  import opened Common

  type GenreId = int

  datatype GenreEntry =
    | GenreDict(id: Option<GenreId>, name: Option<string>)
    | NotADict

  datatype RatingEntry = Scored(score: int) | Unscored

  datatype Book = Book(title: string, genres: Option<seq<GenreEntry>>, ratings: Option<seq<RatingEntry>>)

  /** A row of the data frame once the `avg_rating` column is added. */
  datatype Row = Row(book: Book, avgRating: real)

  /** An entry of the genre catalog `generos_info`: a genre id and its name. */
  datatype GenreInfo = GenreInfo(id: GenreId, name: string)

  /** An element of `genero_ratings`: `(genero_id, genero_nombre, avg)`. */
  datatype GenreScore = GenreScore(id: GenreId, name: string, avg: real)

  /** `promedio_generos`: three parallel lists. */
  datatype GenreColumns = GenreColumns(ids: seq<GenreId>, names: seq<string>, averages: seq<real>)

  /** `genero_actual`. */
  datatype CurrentGenre = CurrentGenre(id: GenreId, name: string)

  /** The `resultados` dictionary. */
  datatype Results = Results(
    topGenre: Option<GenreScore>,
    genreColumns: GenreColumns,
    top3Books: seq<Row>,
    top3Genre: seq<Row>,
    currentGenre: Option<CurrentGenre>)

  /** How many books each top list keeps (`head(3)`). */
  const TopCount: nat := 3

  /** The name reported for a chosen genre that is not in the catalog. */
  const UnknownGenreName: string := "Desconocido"

  /** The results as initialised, and as returned when the analysis stops early. */
  function Defaults(): Results
  {
    Results(None, GenreColumns([], [], []), [], [], None)
  }

  // ---------------------------------------------------------------------------
  // Per-book average (lines 82-84)
  // ---------------------------------------------------------------------------

  /** The scores `r['score'] for r in x`, or `None` when some rating has no score. */
  function ScoresOf(rs: seq<RatingEntry>): (r: Option<seq<int>>)
    ensures r.Some? <==> forall i :: 0 <= i < |rs| ==> rs[i].Scored?
    ensures r.Some? ==> |r.value| == |rs| && forall i :: 0 <= i < |rs| ==> r.value[i] == rs[i].score
  {
    if rs == [] then Some([])
    else match ScoresOf(rs[..|rs| - 1])
      case None => None
      case Some(init) =>
        match rs[|rs| - 1]
        case Unscored => None
        case Scored(s) => Some(init + [s])
  }

  /** The `avg_rating` of one book: 0 for no ratings, else the rounded mean of
      its scores; `None` when a `score` lookup raises. */
  function BookAverage(b: Book): (r: Option<real>)
    ensures r.None? <==> b.ratings.Some? && b.ratings.value != [] && ScoresOf(b.ratings.value).None?
  {
    match b.ratings
    case None => Some(0.0)
    case Some(rs) =>
      if rs == [] then Some(0.0)
      else match ScoresOf(rs)
        case None => None
        case Some(ss) => Some(Round2(MeanInt(ss)))
  }

  /** The frame after `df['avg_rating'] = ...`: every book with its average, or
      `None` when the average of some book raises. */
  function WithAverages(books: seq<Book>): (r: Option<seq<Row>>)
    ensures r.Some? <==> forall i :: 0 <= i < |books| ==> BookAverage(books[i]).Some?
    ensures r.Some? ==> |r.value| == |books|
    ensures r.Some? ==> forall i :: 0 <= i < |books| ==> r.value[i] == Row(books[i], BookAverage(books[i]).value)
  {
    if books == [] then Some([])
    else match WithAverages(books[..|books| - 1])
      case None => None
      case Some(init) =>
        match BookAverage(books[|books| - 1])
        case None => None
        case Some(a) => Some(init + [Row(books[|books| - 1], a)])
  }

  /** The `avg_rating` column. */
  function Averages(rows: seq<Row>): (r: seq<real>)
    ensures |r| == |rows|
    ensures forall i :: 0 <= i < |rows| ==> r[i] == rows[i].avgRating
  {
    seq(|rows|, i requires 0 <= i < |rows| => rows[i].avgRating)
  }

  /** A book with no ratings, or none at all, averages exactly 0. */
  lemma BookAverageUnrated(b: Book)
    requires b.ratings.None? || b.ratings.value == []
    ensures BookAverage(b) == Some(0.0)
  {
  }

  /** With every score between one and five stars, a book's average is 0 when
      it has no ratings and lies between 1 and 5 otherwise. */
  lemma BookAverageRange(b: Book)
    requires b.ratings.Some? ==> forall i :: 0 <= i < |b.ratings.value| ==>
      b.ratings.value[i].Scored? && 1 <= b.ratings.value[i].score <= 5
    ensures BookAverage(b).Some?
    ensures BookAverage(b).value == 0.0 <==> b.ratings.None? || b.ratings.value == []
    ensures b.ratings.Some? && b.ratings.value != [] ==> 1.0 <= BookAverage(b).value <= 5.0
  {
    if b.ratings.Some? && b.ratings.value != [] {
      var ss := ScoresOf(b.ratings.value).value;
      MeanIntBounds(ss, 1, 5);
      Round2Within(MeanInt(ss), 1, 5);
    }
  }

  /** A single rating averages to its own score, and so do `k` equal scores. */
  lemma {:induction false} BookAverageConstant(b: Book, s: int)
    requires b.ratings.Some? && b.ratings.value != []
    requires forall i :: 0 <= i < |b.ratings.value| ==> b.ratings.value[i] == Scored(s)
    ensures BookAverage(b) == Some(s as real)
  {
    var ss := ScoresOf(b.ratings.value).value;
    MeanIntConstant(ss, s);
    Round2OfInt(s);
  }

  // ---------------------------------------------------------------------------
  // Genre catalog: obtener_info_generos (lines 56-68)
  // ---------------------------------------------------------------------------

  /** The catalog entry a genre entry contributes: only a dict with both keys does. */
  function NamedGenre(e: GenreEntry): (r: Option<GenreInfo>)
    ensures r.Some? <==> e.GenreDict? && e.id.Some? && e.name.Some?
  {
    if e.GenreDict? && e.id.Some? && e.name.Some? then Some(GenreInfo(e.id.value, e.name.value)) else None
  }

  /** The well-formed genre entries of one list, in order. */
  function Pairs(gs: seq<GenreEntry>): seq<GenreInfo>
  {
    if gs == [] then []
    else
      var g := gs[|gs| - 1];
      Pairs(gs[..|gs| - 1]) + (if NamedGenre(g).Some? then [NamedGenre(g).value] else [])
  }

  /** The well-formed genre entries of one book; none when its cell is not a list. */
  function BookPairs(b: Book): seq<GenreInfo>
  {
    if b.genres.Some? then Pairs(b.genres.value) else []
  }

  /** The well-formed genre entries of list-valued `genres` cells, book by book. */
  function Flat(books: seq<Book>): seq<GenreInfo>
  {
    if books == [] then [] else Flat(books[..|books| - 1]) + BookPairs(books[|books| - 1])
  }

  /** The name stored for `id` by the first entry carrying it. */
  function Lookup(cat: seq<GenreInfo>, id: GenreId): (r: Option<string>)
    ensures r.Some? <==> exists k :: 0 <= k < |cat| && cat[k].id == id
  {
    if cat == [] then None
    else
      var init := Lookup(cat[..|cat| - 1], id);
      if init.Some? then init
      else if cat[|cat| - 1].id == id then Some(cat[|cat| - 1].name)
      else None
  }

  /** Whether `id` is a key of the catalog (`g['id'] in generos_info`). */
  function HasKey(cat: seq<GenreInfo>, id: GenreId): bool
  {
    Lookup(cat, id).Some?
  }

  /** `generos_info.get(id, default)`. */
  function LookupOr(cat: seq<GenreInfo>, id: GenreId, default: string): string
  {
    match Lookup(cat, id)
    case Some(name) => name
    case None => default
  }

  /** A dictionary filled in first-seen order: an entry whose key is already
      present is dropped. */
  function Dedup(s: seq<GenreInfo>): seq<GenreInfo>
  {
    if s == [] then []
    else
      var d := Dedup(s[..|s| - 1]);
      if HasKey(d, s[|s| - 1].id) then d else d + [s[|s| - 1]]
  }

  /** One step of the catalog loop (lines 62-64): record a dict entry that has
      both keys and whose id is not yet known. */
  function AddGenre(cat: seq<GenreInfo>, e: GenreEntry): seq<GenreInfo>
  {
    if e.GenreDict? && e.id.Some? && e.name.Some? && !HasKey(cat, e.id.value)
    then cat + [GenreInfo(e.id.value, e.name.value)]
    else cat
  }

  /** The inner loop over one genre list (line 61). */
  function AddGenres(cat: seq<GenreInfo>, gs: seq<GenreEntry>): seq<GenreInfo>
  {
    if gs == [] then cat else AddGenre(AddGenres(cat, gs[..|gs| - 1]), gs[|gs| - 1])
  }

  /** The genre catalog the script builds: the outer loop over the non-null
      `genres` cells, skipping those that are not lists (lines 59-60). */
  function CatalogOf(books: seq<Book>): seq<GenreInfo>
  {
    if books == [] then []
    else
      var cat := CatalogOf(books[..|books| - 1]);
      var b := books[|books| - 1];
      if b.genres.Some? then AddGenres(cat, b.genres.value) else cat
  }

  /** The position of the first entry carrying `id`. */
  ghost function FirstIndex(s: seq<GenreInfo>, id: GenreId): (k: nat)
    requires HasKey(s, id)
    ensures k < |s| && s[k].id == id
    ensures forall j :: 0 <= j < k ==> s[j].id != id
    ensures Lookup(s, id) == Some(s[k].name)
  {
    if HasKey(s[..|s| - 1], id) then FirstIndex(s[..|s| - 1], id) else |s| - 1
  }

  /** `obtener_info_generos`: walk every list-valued `genres` cell and record
      each well-formed entry whose id is not yet known. */
  method GenreCatalog(books: seq<Book>) returns (catalog: seq<GenreInfo>)
    ensures catalog == CatalogOf(books)
  {
    catalog := [];
    var i := 0;
    while i < |books|
      invariant 0 <= i <= |books|
      invariant catalog == CatalogOf(books[..i])
    {
      assert books[..i + 1][..i] == books[..i];
      if books[i].genres.Some? {
        var gs := books[i].genres.value;
        ghost var start := catalog;
        var j := 0;
        while j < |gs|
          invariant 0 <= j <= |gs|
          invariant catalog == AddGenres(start, gs[..j])
        {
          assert gs[..j + 1][..j] == gs[..j];
          var g := gs[j];
          if g.GenreDict? && g.id.Some? && g.name.Some? {
            if !HasKey(catalog, g.id.value) {
              catalog := catalog + [GenreInfo(g.id.value, g.name.value)];
            }
          }
          j := j + 1;
        }
        assert gs[..|gs|] == gs;
      }
      i := i + 1;
    }
    assert books[..|books|] == books;
  }

  /** The catalog is, equivalently, the well-formed entries with every repeated
      id after its first occurrence dropped. */
  lemma {:induction false} CatalogIsDedup(books: seq<Book>)
    ensures CatalogOf(books) == Dedup(Flat(books))
  {
    if books != [] {
      var init, b := books[..|books| - 1], books[|books| - 1];
      CatalogIsDedup(init);
      if b.genres.Some? {
        AddGenresIsDedup(Flat(init), b.genres.value);
      } else {
        assert Flat(init) + [] == Flat(init);
      }
    }
  }

  lemma {:induction false} AddGenresIsDedup(prefix: seq<GenreInfo>, gs: seq<GenreEntry>)
    ensures AddGenres(Dedup(prefix), gs) == Dedup(prefix + Pairs(gs))
  {
    if gs == [] {
      assert prefix + [] == prefix;
    } else {
      var init, g := gs[..|gs| - 1], gs[|gs| - 1];
      AddGenresIsDedup(prefix, init);
      var before := prefix + Pairs(init);
      var tail := if NamedGenre(g).Some? then [NamedGenre(g).value] else [];
      assert prefix + Pairs(gs) == before + tail;
      AddGenreIsDedup(before, g);
    }
  }

  /** One step of the inner loop extends the deduplicated entries by the entry's pair, if any. */
  lemma AddGenreIsDedup(before: seq<GenreInfo>, g: GenreEntry)
    ensures AddGenre(Dedup(before), g) ==
      Dedup(before + (if NamedGenre(g).Some? then [NamedGenre(g).value] else []))
  {
    if NamedGenre(g).Some? {
      var x := NamedGenre(g).value;
      assert (before + [x])[..|before|] == before;
    } else {
      assert before + [] == before;
    }
  }

  lemma {:induction false} DedupKeys(s: seq<GenreInfo>, id: GenreId)
    ensures HasKey(Dedup(s), id) == HasKey(s, id)
  {
    if s != [] {
      DedupKeys(s[..|s| - 1], id);
    }
  }

  /** A key that is already present: adding entries keeps its first name. */
  lemma LookupAppend(s: seq<GenreInfo>, x: GenreInfo, id: GenreId)
    ensures Lookup(s + [x], id) == if HasKey(s, id) then Lookup(s, id)
                                  else if x.id == id then Some(x.name) else None
    ensures HasKey(s, id) ==> FirstIndex(s + [x], id) == FirstIndex(s, id)
    ensures !HasKey(s, id) && x.id == id ==> FirstIndex(s + [x], id) == |s|
  {
    assert (s + [x])[..|s|] == s;
  }

  /** The catalog has no key twice. */
  lemma {:induction false} DedupUnique(s: seq<GenreInfo>)
    ensures forall i, j :: 0 <= i < j < |Dedup(s)| ==> Dedup(s)[i].id != Dedup(s)[j].id
  {
    if s != [] {
      var init, x := s[..|s| - 1], s[|s| - 1];
      DedupUnique(init);
    }
  }

  /** The catalog keeps the first-seen name of every id. */
  lemma {:induction false} DedupLookup(s: seq<GenreInfo>, id: GenreId)
    ensures Lookup(Dedup(s), id) == Lookup(s, id)
  {
    if s != [] {
      var init, x := s[..|s| - 1], s[|s| - 1];
      DedupLookup(init, id);
      DedupKeys(init, x.id);
      LookupAppend(init, x, id);
      LookupAppend(Dedup(init), x, id);
      assert s == init + [x];
    }
  }

  /** The catalog lists its ids in the order in which each was first seen. */
  lemma {:induction false} DedupOrder(s: seq<GenreInfo>)
    ensures forall i :: 0 <= i < |Dedup(s)| ==> HasKey(s, Dedup(s)[i].id)
    ensures forall i, j :: 0 <= i < j < |Dedup(s)| ==>
      FirstIndex(s, Dedup(s)[i].id) < FirstIndex(s, Dedup(s)[j].id)
  {
    if s != [] {
      var init, x := s[..|s| - 1], s[|s| - 1];
      DedupOrder(init);
      assert s == init + [x];
      var d := Dedup(init);
      forall i | 0 <= i < |d|
        ensures HasKey(s, d[i].id) && FirstIndex(s, d[i].id) == FirstIndex(init, d[i].id) < |init|
      {
        LookupAppend(init, x, d[i].id);
      }
      if !HasKey(d, x.id) {
        DedupKeys(init, x.id);
        LookupAppend(init, x, x.id);
        var e := d + [x];
        assert Dedup(s) == e;
        forall i, j | 0 <= i < j < |e|
          ensures FirstIndex(s, e[i].id) < FirstIndex(s, e[j].id)
        {
          if j == |d| {
            assert e[j] == x && e[i] == d[i];
          } else {
            assert e[i] == d[i] && e[j] == d[j];
          }
        }
      }
    }
  }

  /** Which pairs a genre list contributes. */
  lemma {:induction false} PairsMembers(gs: seq<GenreEntry>, g: GenreInfo)
    ensures g in Pairs(gs) <==> exists j :: 0 <= j < |gs| && NamedGenre(gs[j]) == Some(g)
  {
    if gs != [] {
      PairsMembers(gs[..|gs| - 1], g);
      assert forall j :: 0 <= j < |gs| - 1 ==> gs[..|gs| - 1][j] == gs[j];
    }
  }

  /** Which pairs the books contribute: exactly the dict entries with both an
      id and a name, taken from list-valued cells. */
  lemma FlatMembers(books: seq<Book>, g: GenreInfo)
    ensures g in Flat(books) <==>
      exists i, j :: 0 <= i < |books| && books[i].genres.Some? &&
        0 <= j < |books[i].genres.value| && NamedGenre(books[i].genres.value[j]) == Some(g)
  {
    if g in Flat(books) {
      FlatMemberSource(books, g);
    }
    if exists i, j :: 0 <= i < |books| && books[i].genres.Some? &&
        0 <= j < |books[i].genres.value| && NamedGenre(books[i].genres.value[j]) == Some(g) {
      var i, j :| 0 <= i < |books| && books[i].genres.Some? &&
        0 <= j < |books[i].genres.value| && NamedGenre(books[i].genres.value[j]) == Some(g);
      FlatMemberOf(books, g, i, j);
    }
  }

  lemma {:induction false} FlatMemberSource(books: seq<Book>, g: GenreInfo)
    requires g in Flat(books)
    ensures exists i, j ::
      0 <= i < |books| && books[i].genres.Some? &&
      0 <= j < |books[i].genres.value| && NamedGenre(books[i].genres.value[j]) == Some(g)
  {
    var init, b := books[..|books| - 1], books[|books| - 1];
    if g in Flat(init) {
      FlatMemberSource(init, g);
      var i, j :| 0 <= i < |init| && init[i].genres.Some? &&
        0 <= j < |init[i].genres.value| && NamedGenre(init[i].genres.value[j]) == Some(g);
      assert books[i] == init[i];
    } else {
      PairsMembers(b.genres.value, g);
      var j :| 0 <= j < |b.genres.value| && NamedGenre(b.genres.value[j]) == Some(g);
      assert books[|books| - 1] == b;
    }
  }

  lemma {:induction false} FlatMemberOf(books: seq<Book>, g: GenreInfo, i: nat, j: nat)
    requires i < |books| && books[i].genres.Some?
    requires j < |books[i].genres.value| && NamedGenre(books[i].genres.value[j]) == Some(g)
    ensures g in Flat(books)
  {
    var init := books[..|books| - 1];
    if i < |init| {
      assert init[i] == books[i];
      FlatMemberOf(init, g, i, j);
    } else {
      PairsMembers(books[i].genres.value, g);
    }
  }

  lemma {:induction false} LookupMember(s: seq<GenreInfo>, id: GenreId)
    ensures HasKey(s, id) <==> exists name :: GenreInfo(id, name) in s
  {
    if HasKey(s, id) {
      var k := FirstIndex(s, id);
      assert GenreInfo(id, s[k].name) == s[k];
    }
  }

  /** What the catalog holds: an id is a key exactly when some list-valued
      `genres` cell has a dict entry with that id and a name; its name is the
      first such entry's; no id appears twice; keys are in first-seen order. */
  lemma CatalogSpec(books: seq<Book>, id: GenreId)
    ensures HasKey(CatalogOf(books), id) <==>
      exists i, j :: 0 <= i < |books| && books[i].genres.Some? &&
        0 <= j < |books[i].genres.value| && NamedGenre(books[i].genres.value[j]).Some? &&
        NamedGenre(books[i].genres.value[j]).value.id == id
    ensures Lookup(CatalogOf(books), id) == Lookup(Flat(books), id)
    ensures forall i, j :: 0 <= i < j < |CatalogOf(books)| ==> CatalogOf(books)[i].id != CatalogOf(books)[j].id
    ensures forall i :: 0 <= i < |CatalogOf(books)| ==> HasKey(Flat(books), CatalogOf(books)[i].id)
    ensures forall i, j :: 0 <= i < j < |CatalogOf(books)| ==>
      FirstIndex(Flat(books), CatalogOf(books)[i].id) < FirstIndex(Flat(books), CatalogOf(books)[j].id)
  {
    CatalogIsDedup(books);
    var s := Flat(books);
    DedupKeys(s, id);
    DedupLookup(s, id);
    DedupUnique(s);
    DedupOrder(s);
    LookupMember(s, id);
    if HasKey(s, id) {
      var name :| GenreInfo(id, name) in s;
      FlatMembers(books, GenreInfo(id, name));
    }
    if exists i, j :: 0 <= i < |books| && books[i].genres.Some? &&
        0 <= j < |books[i].genres.value| && NamedGenre(books[i].genres.value[j]).Some? &&
        NamedGenre(books[i].genres.value[j]).value.id == id {
      var i, j :| 0 <= i < |books| && books[i].genres.Some? &&
        0 <= j < |books[i].genres.value| && NamedGenre(books[i].genres.value[j]).Some? &&
        NamedGenre(books[i].genres.value[j]).value.id == id;
      FlatMembers(books, NamedGenre(books[i].genres.value[j]).value);
    }
  }

  // ---------------------------------------------------------------------------
  // Genre membership and ranking (lines 92-104)
  // ---------------------------------------------------------------------------

  /** `[g['id'] for g in x]`, or `None` when some entry has no `id` to index. */
  function GenreIds(gs: seq<GenreEntry>): (r: Option<seq<GenreId>>)
    ensures r.Some? <==> forall j :: 0 <= j < |gs| ==> gs[j].GenreDict? && gs[j].id.Some?
    ensures r.Some? ==> |r.value| == |gs| && forall j :: 0 <= j < |gs| ==> r.value[j] == gs[j].id.value
  {
    if gs == [] then Some([])
    else
      var g := gs[|gs| - 1];
      match GenreIds(gs[..|gs| - 1])
      case None => None
      case Some(init) => if g.GenreDict? && g.id.Some? then Some(init + [g.id.value]) else None
  }

  /** The membership lambda: `false` for a cell that is not a list, `None`
      when building the id list raises. */
  function ListsGenre(b: Book, id: GenreId): Option<bool>
  {
    match b.genres
    case None => Some(false)
    case Some(gs) =>
      match GenreIds(gs)
      case None => None
      case Some(ids) => Some(id in ids)
  }

  /** `df[df['genres'].apply(lambda)]`: the rows listing `id`, in frame order,
      or `None` when the lambda raises on some row. */
  function Selection(rows: seq<Row>, id: GenreId): Option<seq<Row>>
  {
    if rows == [] then Some([])
    else
      var r := rows[|rows| - 1];
      match Selection(rows[..|rows| - 1], id)
      case None => None
      case Some(init) =>
        match ListsGenre(r.book, id)
        case None => None
        case Some(member) => Some(if member then init + [r] else init)
  }

  /** The triple one catalog genre adds to `genero_ratings`, if any. */
  function RankEntry(rows: seq<Row>, g: GenreInfo): seq<GenreScore>
  {
    match Selection(rows, g.id)
    case None => []
    case Some(sel) => if sel == [] then [] else [GenreScore(g.id, g.name, Round2(MeanReal(Averages(sel))))]
  }

  /** `genero_ratings` after the loop over the catalog. */
  function GenreRanking(rows: seq<Row>, cat: seq<GenreInfo>): seq<GenreScore>
  {
    if cat == [] then []
    else GenreRanking(rows, cat[..|cat| - 1]) + RankEntry(rows, cat[|cat| - 1])
  }

  /** The loop of lines 92-104. */
  method RankGenres(rows: seq<Row>, catalog: seq<GenreInfo>) returns (ranking: seq<GenreScore>)
    ensures ranking == GenreRanking(rows, catalog)
  {
    ranking := [];
    var i := 0;
    while i < |catalog|
      invariant 0 <= i <= |catalog|
      invariant ranking == GenreRanking(rows, catalog[..i])
    {
      assert catalog[..i + 1][..i] == catalog[..i];
      var g := catalog[i];
      var librosGenero := Selection(rows, g.id);
      if librosGenero.Some? && librosGenero.value != [] {
        var avg := Round2(MeanReal(Averages(librosGenero.value)));
        ranking := ranking + [GenreScore(g.id, g.name, avg)];
      }
      i := i + 1;
    }
    assert catalog[..|catalog|] == catalog;
  }

  /** The selection fails exactly when some row's lambda raises; otherwise it
      holds exactly the rows that list the genre, each exactly as often as in
      the frame. */
  lemma SelectionSpec(rows: seq<Row>, id: GenreId)
    ensures Selection(rows, id).None? <==> exists i :: 0 <= i < |rows| && ListsGenre(rows[i].book, id).None?
    ensures Selection(rows, id).Some? ==>
      var sel := Selection(rows, id).value;
      && (forall x :: multiset(sel)[x] == if ListsGenre(x.book, id) == Some(true) then multiset(rows)[x] else 0)
      && multiset(sel) <= multiset(rows)
      && (forall r :: r in sel ==> ListsGenre(r.book, id) == Some(true))
      && (forall i :: 0 <= i < |rows| && ListsGenre(rows[i].book, id) == Some(true) ==> rows[i] in sel)
  {
    SelectionFails(rows, id);
    if Selection(rows, id).Some? {
      SelectionContents(rows, id);
    }
  }

  lemma {:induction false} SelectionFails(rows: seq<Row>, id: GenreId)
    ensures Selection(rows, id).None? <==> exists i :: 0 <= i < |rows| && ListsGenre(rows[i].book, id).None?
  {
    if rows != [] {
      var init := rows[..|rows| - 1];
      SelectionFails(init, id);
      if Selection(init, id).None? {
        var i :| 0 <= i < |init| && ListsGenre(init[i].book, id).None?;
        assert ListsGenre(rows[i].book, id).None?;
      } else if Selection(rows, id).Some? {
        assert forall i :: 0 <= i < |init| ==> init[i] == rows[i];
      }
    }
  }

  lemma {:induction false} SelectionContents(rows: seq<Row>, id: GenreId)
    requires Selection(rows, id).Some?
    ensures var sel := Selection(rows, id).value;
      && (forall x :: multiset(sel)[x] == if ListsGenre(x.book, id) == Some(true) then multiset(rows)[x] else 0)
      && multiset(sel) <= multiset(rows)
      && (forall r :: r in sel ==> ListsGenre(r.book, id) == Some(true))
      && (forall i :: 0 <= i < |rows| && ListsGenre(rows[i].book, id) == Some(true) ==> rows[i] in sel)
  {
    if rows != [] {
      var init, r := rows[..|rows| - 1], rows[|rows| - 1];
      SelectionContents(init, id);
      assert rows == init + [r];
      assert forall i :: 0 <= i < |init| ==> init[i] == rows[i];
    }
  }

  /** A genre entry without an `id` in any list-valued cell makes every
      membership test raise: no genre is ranked and no selection succeeds. */
  lemma MalformedEntrySpoilsRanking(rows: seq<Row>, cat: seq<GenreInfo>, k: nat)
    requires k < |rows| && rows[k].book.genres.Some?
    requires exists j ::
      0 <= j < |rows[k].book.genres.value| &&
      !(rows[k].book.genres.value[j].GenreDict? && rows[k].book.genres.value[j].id.Some?)
    ensures forall id :: Selection(rows, id).None?
    ensures GenreRanking(rows, cat) == []
  {
    forall id ensures Selection(rows, id).None? {
      SelectionSpec(rows, id);
      assert ListsGenre(rows[k].book, id).None?;
    }
    RankingEmptyWithoutSelections(rows, cat);
  }

  lemma {:induction false} RankingEmptyWithoutSelections(rows: seq<Row>, cat: seq<GenreInfo>)
    requires forall id :: Selection(rows, id).None?
    ensures GenreRanking(rows, cat) == []
  {
    if cat != [] {
      RankingEmptyWithoutSelections(rows, cat[..|cat| - 1]);
    }
  }

  /** A triple is ranked exactly when its genre is in the catalog, at least one
      book lists it and no lambda raises, and then its average is the rounded
      mean of those books' averages. */
  lemma {:induction false} RankingMembers(rows: seq<Row>, cat: seq<GenreInfo>, t: GenreScore)
    ensures t in GenreRanking(rows, cat) <==>
      && GenreInfo(t.id, t.name) in cat
      && Selection(rows, t.id).Some?
      && Selection(rows, t.id).value != []
      && t.avg == Round2(MeanReal(Averages(Selection(rows, t.id).value)))
  {
    if cat != [] {
      RankingMembers(rows, cat[..|cat| - 1], t);
      assert cat == cat[..|cat| - 1] + [cat[|cat| - 1]];
    }
  }

  /** `a` is `b` with some elements left out, order kept. */
  predicate IsSubsequence(a: seq<GenreInfo>, b: seq<GenreInfo>)
  {
    || a == []
    || (&& b != []
        && ((a[|a| - 1] == b[|b| - 1] && IsSubsequence(a[..|a| - 1], b[..|b| - 1]))
            || IsSubsequence(a, b[..|b| - 1])))
  }

  /** The genre of each triple. */
  function GenresOf(ranking: seq<GenreScore>): (r: seq<GenreInfo>)
    ensures |r| == |ranking|
    ensures forall i :: 0 <= i < |ranking| ==> r[i] == GenreInfo(ranking[i].id, ranking[i].name)
  {
    if ranking == [] then []
    else
      var t := ranking[|ranking| - 1];
      GenresOf(ranking[..|ranking| - 1]) + [GenreInfo(t.id, t.name)]
  }

  lemma {:induction false} SubsequenceExtend(a: seq<GenreInfo>, b: seq<GenreInfo>, x: GenreInfo)
    requires IsSubsequence(a, b)
    ensures IsSubsequence(a, b + [x])
  {
    if a != [] {
      assert (b + [x])[..|b|] == b;
    }
  }

  /** With every book's average between 0 and 5 stars, so is every genre's
      average: the mean of a selection of those averages, rounded. */
  lemma RankedAverageRange(rows: seq<Row>, cat: seq<GenreInfo>, t: GenreScore)
    requires forall i :: 0 <= i < |rows| ==> 0.0 <= rows[i].avgRating <= 5.0
    requires t in GenreRanking(rows, cat)
    ensures 0.0 <= t.avg <= 5.0
  {
    RankingMembers(rows, cat, t);
    SelectionSpec(rows, t.id);
    var sel := Selection(rows, t.id).value;
    var avgs := Averages(sel);
    forall i | 0 <= i < |avgs|
      ensures 0.0 <= avgs[i] <= 5.0
    {
      assert sel[i] in multiset(rows);
      var k :| 0 <= k < |rows| && rows[k] == sel[i];
    }
    MeanRealBounds(avgs, 0.0, 5.0);
    Round2Within(MeanReal(avgs), 0, 5);
  }

  /** The ranking keeps catalog order: its genres are a subsequence of the catalog. */
  lemma {:induction false} RankingInCatalogOrder(rows: seq<Row>, cat: seq<GenreInfo>)
    ensures IsSubsequence(GenresOf(GenreRanking(rows, cat)), cat)
  {
    if cat != [] {
      var init, g := cat[..|cat| - 1], cat[|cat| - 1];
      assert cat == init + [g];
      RankingInCatalogOrder(rows, init);
      var r0 := GenreRanking(rows, init);
      var a0 := GenresOf(r0);
      if RankEntry(rows, g) == [] {
        assert GenreRanking(rows, cat) == r0;
        SubsequenceExtend(a0, init, g);
      } else {
        var t := RankEntry(rows, g)[0];
        assert GenreRanking(rows, cat) == r0 + [t];
        GenresOfAppend(r0, t);
        SubsequenceAppendBoth(a0, init, g);
      }
    }
  }

  lemma GenresOfAppend(r: seq<GenreScore>, t: GenreScore)
    ensures GenresOf(r + [t]) == GenresOf(r) + [GenreInfo(t.id, t.name)]
  {
    assert (r + [t])[..|r|] == r;
  }

  lemma SubsequenceAppendBoth(a: seq<GenreInfo>, b: seq<GenreInfo>, x: GenreInfo)
    requires IsSubsequence(a, b)
    ensures IsSubsequence(a + [x], b + [x])
  {
    assert (a + [x])[..|a|] == a;
    assert (b + [x])[..|b|] == b;
  }

  // ---------------------------------------------------------------------------
  // Top genre (lines 106-109) and the three parallel lists (lines 111-116)
  // ---------------------------------------------------------------------------

  /** `max(genero_ratings, key=lambda x: x[2])`: a left-to-right scan that
      replaces its candidate only on a strictly larger average. */
  function FirstMaxIndex(s: seq<GenreScore>): (k: nat)
    requires |s| > 0
    ensures k < |s|
    ensures forall j :: 0 <= j < |s| ==> s[j].avg <= s[k].avg
    ensures forall j :: 0 <= j < k ==> s[j].avg < s[k].avg
  {
    if |s| == 1 then 0
    else
      var k := FirstMaxIndex(s[..|s| - 1]);
      if s[|s| - 1].avg > s[k].avg then |s| - 1 else k
  }

  /** The parallel lists are aligned with the ranking. */
  predicate Aligned(c: GenreColumns)
  {
    |c.ids| == |c.names| == |c.averages|
  }

  /** `promedio_generos` built from the ranking. */
  function Columns(ranking: seq<GenreScore>): (c: GenreColumns)
    ensures Aligned(c) && |c.ids| == |ranking|
    ensures Zip(c) == ranking
  {
    var c := GenreColumns(
      seq(|ranking|, i requires 0 <= i < |ranking| => ranking[i].id),
      seq(|ranking|, i requires 0 <= i < |ranking| => ranking[i].name),
      seq(|ranking|, i requires 0 <= i < |ranking| => ranking[i].avg));
    assert Zip(c) == ranking by {
      forall i | 0 <= i < |ranking| ensures Zip(c)[i] == ranking[i] { }
    }
    c
  }

  /** Reading the parallel lists back position by position. */
  function Zip(c: GenreColumns): (r: seq<GenreScore>)
    requires Aligned(c)
    ensures |r| == |c.ids|
  {
    seq(|c.ids|, i requires 0 <= i < |c.ids| => GenreScore(c.ids[i], c.names[i], c.averages[i]))
  }

  // ---------------------------------------------------------------------------
  // Top books (lines 119 and 128)
  // ---------------------------------------------------------------------------

  predicate SortedDesc(s: seq<Row>)
  {
    forall i, j :: 0 <= i < j < |s| ==> s[i].avgRating >= s[j].avgRating
  }

  /** Insert `x` before the first row whose average does not exceed its own. */
  function InsertDesc(s: seq<Row>, x: Row): seq<Row>
  {
    if s == [] then [x]
    else if s[0].avgRating <= x.avgRating then [x] + s
    else [s[0]] + InsertDesc(s[1..], x)
  }

  /** `sort_values('avg_rating', ascending=False)`. The library promises no
      order among equal averages; this model settles them stably, so `Analyze`,
      `AnalysisRanking` and `AnalysisChosenGenre` report one admissible order,
      while `SortDescSpec`, `TopNSpec` and `ChosenTop3Spec` state only what
      holds for every admissible order. */
  function SortDesc(rows: seq<Row>): seq<Row>
  {
    if rows == [] then [] else InsertDesc(SortDesc(rows[1..]), rows[0])
  }

  lemma {:induction false} InsertDescSpec(s: seq<Row>, x: Row)
    requires SortedDesc(s)
    ensures SortedDesc(InsertDesc(s, x))
    ensures multiset(InsertDesc(s, x)) == multiset(s) + multiset{x}
    ensures |InsertDesc(s, x)| == |s| + 1
  {
    InsertDescSorted(s, x);
    InsertDescMultiset(s, x);
  }

  lemma {:induction false} InsertDescMultiset(s: seq<Row>, x: Row)
    ensures multiset(InsertDesc(s, x)) == multiset(s) + multiset{x}
    ensures |InsertDesc(s, x)| == |s| + 1
  {
    if s != [] && s[0].avgRating > x.avgRating {
      InsertDescMultiset(s[1..], x);
      assert s == [s[0]] + s[1..];
    }
  }

  /** Inserting below a bound keeps every row below it. */
  lemma {:induction false} InsertDescBound(s: seq<Row>, x: Row, b: real)
    requires forall i :: 0 <= i < |s| ==> s[i].avgRating <= b
    requires x.avgRating <= b
    ensures |InsertDesc(s, x)| == |s| + 1
    ensures forall i :: 0 <= i < |InsertDesc(s, x)| ==> InsertDesc(s, x)[i].avgRating <= b
  {
    if s != [] && s[0].avgRating > x.avgRating {
      InsertDescBound(s[1..], x, b);
    }
  }

  lemma {:induction false} InsertDescSorted(s: seq<Row>, x: Row)
    requires SortedDesc(s)
    ensures SortedDesc(InsertDesc(s, x))
  {
    if s != [] && s[0].avgRating > x.avgRating {
      var rest := InsertDesc(s[1..], x);
      InsertDescSorted(s[1..], x);
      InsertDescBound(s[1..], x, s[0].avgRating);
      var r := [s[0]] + rest;
      forall i, j | 0 <= i < j < |r|
        ensures r[i].avgRating >= r[j].avgRating
      {
        assert r[j] == rest[j - 1];
        if i > 0 {
          assert r[i] == rest[i - 1];
        }
      }
    }
  }

  /** Sorting yields a non-increasing permutation of its input. */
  lemma {:induction false} SortDescSpec(rows: seq<Row>)
    ensures SortedDesc(SortDesc(rows))
    ensures multiset(SortDesc(rows)) == multiset(rows)
    ensures |SortDesc(rows)| == |rows|
  {
    if rows != [] {
      SortDescSpec(rows[1..]);
      InsertDescSpec(SortDesc(rows[1..]), rows[0]);
      assert rows == [rows[0]] + rows[1..];
    }
  }

  function Min(a: int, b: int): int
  {
    if a < b then a else b
  }

  /** `sort_values(...).head(n)`. */
  function TopN(rows: seq<Row>, n: nat): seq<Row>
  {
    var s := SortDesc(rows);
    s[..Min(n, |s|)]
  }

  /** The top list has `min(n, |rows|)` rows, in non-increasing order of
      average, taken from the input, and no row left out has a larger average
      than a row kept. */
  lemma TopNSpec(rows: seq<Row>, n: nat)
    ensures |TopN(rows, n)| == Min(n, |rows|)
    ensures SortedDesc(TopN(rows, n))
    ensures multiset(TopN(rows, n)) <= multiset(rows)
    ensures forall x, y :: x in multiset(rows) - multiset(TopN(rows, n)) && y in TopN(rows, n) ==>
      x.avgRating <= y.avgRating
  {
    var s := SortDesc(rows);
    SortDescSpec(rows);
    var k := Min(n, |rows|);
    assert TopN(rows, n) == s[..k];
    PrefixSplit(s, k);
    PrefixDominates(s, k);
  }

  /** A prefix takes its rows from the whole, and the rows it leaves are the suffix. */
  lemma PrefixSplit(s: seq<Row>, k: nat)
    requires k <= |s|
    ensures multiset(s[..k]) <= multiset(s)
    ensures multiset(s) - multiset(s[..k]) == multiset(s[k..])
  {
    assert s == s[..k] + s[k..];
  }

  /** In a non-increasing sequence, no row after position `k` beats one before it. */
  lemma PrefixDominates(s: seq<Row>, k: nat)
    requires SortedDesc(s) && k <= |s|
    ensures SortedDesc(s[..k])
    ensures forall x, y :: x in multiset(s[k..]) && y in s[..k] ==> x.avgRating <= y.avgRating
  {
    assert forall i :: 0 <= i < k ==> s[..k][i] == s[i];
    forall x: Row, y: Row | x in multiset(s[k..]) && y in s[..k]
      ensures x.avgRating <= y.avgRating
    {
      assert x in s[k..];
      var a :| 0 <= a < |s[k..]| && s[k..][a] == x;
      var b :| 0 <= b < k && s[..k][b] == y;
      assert s[b] == y && s[k + a] == x;
    }
  }

  // ---------------------------------------------------------------------------
  // The whole analysis: analizar_libros (lines 71-137)
  // ---------------------------------------------------------------------------

  /** The results `analizar_libros` returns for a frame of books and an
      optional chosen genre. An exception caught by the outer handler leaves
      the results as filled so far. */
  function Analysis(books: seq<Book>, chosen: Option<GenreId>): Results
  {
    match WithAverages(books)
    case None => Defaults()
    case Some(rows) =>
      var cat := CatalogOf(books);
      if cat == [] then Defaults()
      else
        var ranking := GenreRanking(rows, cat);
        var ranked := if ranking == [] then Defaults()
                      else Defaults().(topGenre := Some(ranking[FirstMaxIndex(ranking)]),
                                       genreColumns := Columns(ranking));
        var withTop := ranked.(top3Books := TopN(rows, TopCount));
        if chosen.None? then withTop
        else match Selection(rows, chosen.value)
          case None => withTop
          case Some(sel) =>
            if sel == [] then withTop
            else withTop.(top3Genre := TopN(sel, TopCount),
                          currentGenre := Some(CurrentGenre(chosen.value, LookupOr(cat, chosen.value, UnknownGenreName))))
  }

  /** The data frame: the books the API returned and, once added, the
      `avg_rating` column. */
  class DataFrame {
    var books: seq<Book>
    var avgRatingColumn: Option<seq<real>>

    constructor (books: seq<Book>)
      ensures this.books == books && avgRatingColumn == None
    {
      this.books := books;
      avgRatingColumn := None;
    }
  }

  /** `analizar_libros(df, genero_usuario)`. It adds the `avg_rating` column to
      the frame (unless computing it raises) and changes nothing else in it. */
  method Analyze(df: DataFrame, chosen: Option<GenreId>) returns (res: Results)
    modifies df
    ensures res == Analysis(old(df.books), chosen)
    ensures df.books == old(df.books)
    ensures df.avgRatingColumn ==
      if WithAverages(old(df.books)).Some? then Some(Averages(WithAverages(old(df.books)).value))
      else old(df.avgRatingColumn)
  {
    res := Defaults();
    var averaged := WithAverages(df.books);
    if averaged.None? {
      return;
    }
    var rows := averaged.value;
    df.avgRatingColumn := Some(Averages(rows));

    var catalog := GenreCatalog(df.books);
    if catalog == [] {
      return;
    }

    var ranking := RankGenres(rows, catalog);
    if ranking != [] {
      res := res.(topGenre := Some(ranking[FirstMaxIndex(ranking)]));
      res := res.(genreColumns := Columns(ranking));
    }

    res := res.(top3Books := TopN(rows, TopCount));

    if chosen.Some? {
      var librosGenero := Selection(rows, chosen.value);
      if librosGenero.None? {
        return;
      }
      if librosGenero.value != [] {
        res := res.(top3Genre := TopN(librosGenero.value, TopCount));
        res := res.(currentGenre := Some(CurrentGenre(chosen.value, LookupOr(catalog, chosen.value, UnknownGenreName))));
      }
    }
  }

  /** Running the analysis twice on the same frame gives the same results. */
  method AnalyzeTwice(df: DataFrame, chosen: Option<GenreId>) returns (first: Results, second: Results)
    modifies df
    ensures first == second
    ensures df.books == old(df.books)
  {
    first := Analyze(df, chosen);
    second := Analyze(df, chosen);
  }

  // ---------------------------------------------------------------------------
  // Properties of the results
  // ---------------------------------------------------------------------------

  /** With no genre in the catalog, or a rating without a score, every result
      keeps its default, even the top three books of a non-empty frame. */
  lemma AnalysisStopsEarly(books: seq<Book>, chosen: Option<GenreId>)
    requires WithAverages(books).None? || CatalogOf(books) == []
    ensures Analysis(books, chosen) == Defaults()
    ensures Analysis(books, chosen).top3Books == []
  {
  }

  /** Once the averages and a non-empty catalog exist: the top genre is a ranked
      triple with the largest average, the first such one, and exists exactly
      when some genre was ranked; the parallel lists read back to the ranking;
      the top three books are those of the whole frame. */
  lemma AnalysisRanking(books: seq<Book>, chosen: Option<GenreId>)
    requires WithAverages(books).Some? && CatalogOf(books) != []
    ensures var res := Analysis(books, chosen);
      var rows := WithAverages(books).value;
      var ranking := GenreRanking(rows, CatalogOf(books));
      && (res.topGenre.Some? <==> ranking != [])
      && (res.topGenre.Some? ==>
            && res.topGenre.value in ranking
            && (forall t :: t in ranking ==> t.avg <= res.topGenre.value.avg)
            && (exists k :: 0 <= k < |ranking| && ranking[k] == res.topGenre.value &&
                 forall j :: 0 <= j < k ==> ranking[j].avg < ranking[k].avg))
      && Aligned(res.genreColumns)
      && Zip(res.genreColumns) == ranking
      && res.top3Books == TopN(rows, TopCount)
      && |res.top3Books| == Min(TopCount, |books|)
  {
    var rows := WithAverages(books).value;
    var ranking := GenreRanking(rows, CatalogOf(books));
    AnalysisRankingFields(books, chosen);
    TopNSpec(rows, TopCount);
    if ranking != [] {
      var k := FirstMaxIndex(ranking);
    }
  }

  /** With every score between one and five stars, the reported top genre
      and every reported genre average lie between 0 and 5. */
  lemma AnalysisAverageRange(books: seq<Book>, chosen: Option<GenreId>)
    requires forall i :: 0 <= i < |books| && books[i].ratings.Some? ==>
      forall j :: 0 <= j < |books[i].ratings.value| ==>
        books[i].ratings.value[j].Scored? && 1 <= books[i].ratings.value[j].score <= 5
    ensures var res := Analysis(books, chosen);
      res.topGenre.Some? ==> 0.0 <= res.topGenre.value.avg <= 5.0
    ensures var res := Analysis(books, chosen);
      forall k :: 0 <= k < |res.genreColumns.averages| ==> 0.0 <= res.genreColumns.averages[k] <= 5.0
  {
    forall i | 0 <= i < |books|
      ensures BookAverage(books[i]).Some? && 0.0 <= BookAverage(books[i]).value <= 5.0
    {
      BookAverageRange(books[i]);
    }
    if CatalogOf(books) != [] {
      var rows := WithAverages(books).value;
      var ranking := GenreRanking(rows, CatalogOf(books));
      AnalysisRanking(books, chosen);
      var res := Analysis(books, chosen);
      forall t | t in ranking ensures 0.0 <= t.avg <= 5.0 {
        RankedAverageRange(rows, CatalogOf(books), t);
      }
      forall k | 0 <= k < |res.genreColumns.averages|
        ensures 0.0 <= res.genreColumns.averages[k] <= 5.0
      {
        assert Zip(res.genreColumns)[k] in ranking;
      }
    }
  }

  /** The fields the ranking part of the analysis fills. */
  lemma AnalysisRankingFields(books: seq<Book>, chosen: Option<GenreId>)
    requires WithAverages(books).Some? && CatalogOf(books) != []
    ensures var res := Analysis(books, chosen);
      var rows := WithAverages(books).value;
      var ranking := GenreRanking(rows, CatalogOf(books));
      && res.topGenre == (if ranking == [] then None else Some(ranking[FirstMaxIndex(ranking)]))
      && res.genreColumns == (if ranking == [] then Defaults().genreColumns else Columns(ranking))
      && res.top3Books == TopN(rows, TopCount)
  {
  }

  /** The chosen genre is reported exactly when analysis reached it, no
      membership test raised and at least one book lists it; then its name is
      the catalog's or `Desconocido`, and its top three are taken from its books. */
  lemma AnalysisChosenGenre(books: seq<Book>, chosen: Option<GenreId>)
    ensures var res := Analysis(books, chosen);
      res.currentGenre.Some? <==>
        && chosen.Some?
        && WithAverages(books).Some?
        && CatalogOf(books) != []
        && Selection(WithAverages(books).value, chosen.value).Some?
        && Selection(WithAverages(books).value, chosen.value).value != []
    ensures var res := Analysis(books, chosen);
      res.currentGenre.Some? ==>
        && res.currentGenre.value.id == chosen.value
        && res.currentGenre.value.name == LookupOr(CatalogOf(books), chosen.value, UnknownGenreName)
        && res.top3Genre == TopN(Selection(WithAverages(books).value, chosen.value).value, TopCount)
    ensures var res := Analysis(books, chosen);
      res.currentGenre.None? ==> res.top3Genre == []
  {
  }

  /** The top three of the chosen genre, whenever it is reported (the
      conditions `AnalysisChosenGenre` names): at most three of its books, in
      non-increasing order of average, each listing the genre, taken from the
      frame, and no book of the genre left out beats one kept. */
  lemma ChosenTop3Spec(books: seq<Book>, g: GenreId)
    requires WithAverages(books).Some? && CatalogOf(books) != []
    requires Selection(WithAverages(books).value, g).Some? && Selection(WithAverages(books).value, g).value != []
    ensures var rows := WithAverages(books).value;
      var sel := Selection(rows, g).value;
      var top := Analysis(books, Some(g)).top3Genre;
      && |top| == Min(TopCount, |sel|)
      && SortedDesc(top)
      && (forall r :: r in top ==> ListsGenre(r.book, g) == Some(true))
      && multiset(top) <= multiset(rows)
      && (forall x, y :: x in multiset(sel) - multiset(top) && y in top ==> x.avgRating <= y.avgRating)
  {
    AnalysisChosenGenre(books, Some(g));
    var rows := WithAverages(books).value;
    var sel := Selection(rows, g).value;
    TopNSpec(sel, TopCount);
    SelectionSpec(rows, g);
    var top := TopN(sel, TopCount);
    forall r | r in top ensures ListsGenre(r.book, g) == Some(true) {
      assert r in multiset(top);
    }
  }
}
