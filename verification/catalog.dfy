/** The catalog selections of the storefront's home page (app/page.tsx): the
    search-and-filter list, the featured games, the new releases and the genre
    and platform options. */
module Catalog {
  import opened Models
  import opened Sequences

  /** `game.rating >= 8.0`, with ratings in tenths. */
  const FeaturedMinRating: int := 80
  /** `.slice(0, 6)` */
  const FeaturedLimit: nat := 6
  /** `.slice(0, 8)` */
  const NewReleasesLimit: nat := 8
  /** The select value that switches a filter off. */
  const AllOption: string := "all"

  // ---------------------------------------------------------------------
  // Search and filters (app/page.tsx:43-63)

  /** `toLowerCase` on one character; only the ASCII letters are mapped. */
  function LowerChar(c: char): char
  {
    if 'A' <= c <= 'Z' then (c as int - 'A' as int + 'a' as int) as char else c
  }

  /** `toLowerCase` on a string: no capital letter is left, each capital
      becomes its small letter and every other character stays. */
  function Lower(s: string): (r: string)
    ensures |r| == |s|
    ensures forall i :: 0 <= i < |r| ==> !('A' <= r[i] <= 'Z')
    ensures forall i :: 0 <= i < |s| && 'A' <= s[i] <= 'Z' ==> r[i] as int == s[i] as int + 32
    ensures forall i :: 0 <= i < |s| && !('A' <= s[i] <= 'Z') ==> r[i] == s[i]
  {
    seq(|s|, i requires 0 <= i < |s| => LowerChar(s[i]))
  }

  /** Lowercasing twice changes nothing more. */
  lemma LowerIdempotent(s: string)
    ensures Lower(Lower(s)) == Lower(s)
  {
    assert forall i :: 0 <= i < |s| ==> Lower(Lower(s))[i] == Lower(s)[i];
  }

  /** `haystack.includes(needle)` on strings: `needle` occurs at some offset.
      The empty string occurs in every string, and nothing longer than the
      haystack occurs in it. */
  predicate Includes(haystack: string, needle: string)
    ensures needle == [] ==> Includes(haystack, needle)
    ensures Includes(haystack, needle) ==> |needle| <= |haystack|
  {
    assert needle == [] ==> needle <= haystack[0..];
    exists i :: 0 <= i <= |haystack| && needle <= haystack[i..]
  }

  /** Lowercasing both sides keeps an occurrence where it was. */
  lemma LowerKeepsOccurrence(haystack: string, needle: string)
    requires Includes(haystack, needle)
    ensures Includes(Lower(haystack), Lower(needle))
  {
    var i :| 0 <= i <= |haystack| && needle <= haystack[i..];
    var lh := Lower(haystack);
    forall k | 0 <= k < |needle|
      ensures Lower(needle)[k] == lh[i..][k]
    {
      assert needle[k] == haystack[i + k];
    }
    assert Lower(needle) <= lh[i..];
  }

  /** The search test: the lowercased title or developer contains the lowercased term. */
  predicate MatchesSearch(game: Game, term: string)
    ensures term == "" ==> MatchesSearch(game, term)
    ensures MatchesSearch(game, term) ==> |term| <= |game.title| || |term| <= |game.developer|
  {
    Includes(Lower(game.title), Lower(term)) || Includes(Lower(game.developer), Lower(term))
  }

  /** The search ignores case: a term and its lowercase find the same games,
      and a title or developer that contains the term as typed is found. */
  lemma SearchIgnoresCase(game: Game, term: string)
    ensures MatchesSearch(game, term) <==> MatchesSearch(game, Lower(term))
    ensures Includes(game.title, term) || Includes(game.developer, term) ==> MatchesSearch(game, term)
  {
    LowerIdempotent(term);
    if Includes(game.title, term) {
      LowerKeepsOccurrence(game.title, term);
    }
    if Includes(game.developer, term) {
      LowerKeepsOccurrence(game.developer, term);
    }
  }

  /** A game is listed when every active filter accepts it; an empty term and
      the value "all" switch a filter off. */
  predicate MatchesFilters(game: Game, term: string, genre: string, platform: string)
  {
    && (term == "" || MatchesSearch(game, term))
    && (genre == AllOption || game.genre == genre)
    && (platform == AllOption || platform in game.platforms)
  }

  function SearchTest(term: string): Game -> bool { (g: Game) => MatchesSearch(g, term) }
  function GenreTest(genre: string): Game -> bool { (g: Game) => g.genre == genre }
  function PlatformTest(platform: string): Game -> bool { (g: Game) => platform in g.platforms }
  function FiltersTest(term: string, genre: string, platform: string): Game -> bool
  {
    (g: Game) => MatchesFilters(g, term, genre, platform)
  }

  /** `filterGames`: narrows `filtered` one active filter at a time. */
  method FilterGames(games: seq<Game>, searchTerm: string, selectedGenre: string, selectedPlatform: string)
    returns (filtered: seq<Game>)
    ensures filtered == Filter(games, FiltersTest(searchTerm, selectedGenre, selectedPlatform))
    ensures IsSubsequence(filtered, games)
    ensures forall g :: g in filtered <==> g in games && MatchesFilters(g, searchTerm, selectedGenre, selectedPlatform)
    ensures searchTerm == "" && selectedGenre == AllOption && selectedPlatform == AllOption ==> filtered == games
  {
    // the tests applied so far, as one predicate
    ghost var afterSearch := (g: Game) => searchTerm == "" || MatchesSearch(g, searchTerm);
    ghost var afterGenre := (g: Game) => afterSearch(g) && (selectedGenre == AllOption || g.genre == selectedGenre);
    ghost var all := FiltersTest(searchTerm, selectedGenre, selectedPlatform);

    filtered := games;
    if searchTerm != "" {
      filtered := Filter(filtered, SearchTest(searchTerm));
      FilterAgrees(games, SearchTest(searchTerm), afterSearch);
    } else {
      FilterKeepsAll(games, afterSearch);
    }
    assert filtered == Filter(games, afterSearch);

    if selectedGenre != AllOption {
      filtered := Filter(filtered, GenreTest(selectedGenre));
      FilterTwice(games, afterSearch, GenreTest(selectedGenre), afterGenre);
    } else {
      FilterAgrees(games, afterSearch, afterGenre);
    }
    assert filtered == Filter(games, afterGenre);

    if selectedPlatform != AllOption {
      filtered := Filter(filtered, PlatformTest(selectedPlatform));
      FilterTwice(games, afterGenre, PlatformTest(selectedPlatform), all);
    } else {
      FilterAgrees(games, afterGenre, all);
    }
    FilterIsSubsequence(games, all);
  }

  // ---------------------------------------------------------------------
  // Featured games (app/page.tsx:65)

  function HighlyRated(): Game -> bool { (g: Game) => g.rating >= FeaturedMinRating }

  /** `games.filter((game) => game.rating >= 8.0).slice(0, 6)` */
  function Featured(games: seq<Game>): (r: seq<Game>)
    ensures |r| <= FeaturedLimit
    ensures forall g :: g in r ==> g in games && g.rating >= FeaturedMinRating
  {
    Take(Filter(games, HighlyRated()), FeaturedLimit)
  }

  /** A prefix of a subsequence is a subsequence. */
  lemma {:induction false} PrefixOfSubsequence(a: seq<Game>, b: seq<Game>, c: seq<Game>)
    requires a <= b && IsSubsequence(b, c)
    ensures IsSubsequence(a, c)
    decreases |c|
  {
    if a != [] && c != [] {
      assert a[0] == b[0];
      if b[0] == c[0] {
        PrefixOfSubsequence(a[1..], b[1..], c[1..]);
      } else {
        PrefixOfSubsequence(a, b, c[1..]);
      }
    }
  }

  /** The featured games appear in catalog order, and they are the first highly
      rated ones: a highly rated game is left out only when six are already shown. */
  lemma FeaturedAreFirstRated(games: seq<Game>)
    ensures IsSubsequence(Featured(games), games)
    ensures Featured(games) <= Filter(games, HighlyRated())
    ensures forall g :: g in games && g.rating >= FeaturedMinRating && g !in Featured(games) ==>
              |Featured(games)| == FeaturedLimit
  {
    FilterIsSubsequence(games, HighlyRated());
    PrefixOfSubsequence(Featured(games), Filter(games, HighlyRated()), games);
  }

  // ---------------------------------------------------------------------
  // New releases (app/page.tsx:66-68)

  /** `new Date(game.releaseDate).getTime()` */
  function ReleaseKey(): Game -> int { (g: Game) => g.releaseDate }

  /** The first eight games of the catalog sorted by release date, newest first,
      computed on a copy so that the catalog itself keeps its order. */
  function NewReleases(games: seq<Game>): (r: seq<Game>)
    ensures |r| == if |games| <= NewReleasesLimit then |games| else NewReleasesLimit
    ensures SortedDesc(r, ReleaseKey())
    ensures forall g :: g in r ==> g in games
    ensures multiset(r) <= multiset(games)
    ensures forall g, x :: g in games && g !in r && x in r ==> x.releaseDate >= g.releaseDate
    // games released on the same date keep their catalog order, and those shown come first
    ensures forall k :: Filter(r, KeyIs(ReleaseKey(), k)) <= Filter(games, KeyIs(ReleaseKey(), k))
  {
    TopOfSortDesc(games, ReleaseKey(), NewReleasesLimit);
    Take(SortDesc(games, ReleaseKey()), NewReleasesLimit)
  }

  /** `games.sort(...)` as the page writes it: the sort reorders the `games`
      state array itself. */
  method SortNewestFirstInPlace(games: array<Game>)
    modifies games
    ensures games[..] == SortDesc(old(games[..]), ReleaseKey())
  {
    var sorted := SortDesc(games[..], ReleaseKey());
    forall i | 0 <= i < games.Length {
      games[i] := sorted[i];
    }
    assert games[..] == sorted;
  }

  /** One render of the page as written: featured games from the current array,
      then new releases by sorting that same array in place. */
  method RenderAsWritten(games: array<Game>) returns (featured: seq<Game>, newReleases: seq<Game>)
    modifies games
    ensures featured == Featured(old(games[..]))
    ensures games[..] == SortDesc(old(games[..]), ReleaseKey())
    ensures newReleases == NewReleases(old(games[..]))
  {
    featured := Featured(games[..]);
    SortNewestFirstInPlace(games);
    newReleases := Take(games[..], NewReleasesLimit);
  }

  /** Two highly rated games, listed oldest first. */
  const OlderHit: Game := Game("g1", "Older Hit", "", 5999, "", "RPG", ["PC"], "Studio", "Publisher", 1000, 90, true, 0, 0)
  const NewerHit: Game := Game("g2", "Newer Hit", "", 6999, "", "RPG", ["PC"], "Studio", "Publisher", 2000, 85, true, 0, 0)

  /** The in-place sort leaks into the next render: for the catalog
      [OlderHit, NewerHit] the first render features them in catalog order, but
      the array it leaves behind is newest first, so the next render features
      them the other way round. */
  lemma RerenderReordersFeatured()
    ensures Featured([OlderHit, NewerHit]) == [OlderHit, NewerHit]
    ensures SortDesc([OlderHit, NewerHit], ReleaseKey()) == [NewerHit, OlderHit]
    ensures Featured(SortDesc([OlderHit, NewerHit], ReleaseKey())) != Featured([OlderHit, NewerHit])
  {
    var catalog := [OlderHit, NewerHit];
    assert Filter(catalog, HighlyRated()) == catalog by {
      FilterKeepsAll(catalog, HighlyRated());
    }
    assert catalog[1..] == [NewerHit];
    assert SortDesc([NewerHit], ReleaseKey()) == [NewerHit] by {
      assert [NewerHit][1..] == [];
    }
    assert InsertDesc(OlderHit, [NewerHit], ReleaseKey()) == [NewerHit, OlderHit] by {
      assert [NewerHit][1..] == [];
    }
    var sorted := [NewerHit, OlderHit];
    assert Filter(sorted, HighlyRated()) == sorted by {
      FilterKeepsAll(sorted, HighlyRated());
    }
  }

  /** One render with the sort done on a copy: the catalog array is only read,
      so every later render sees the same catalog and the same selections. */
  method Render(games: array<Game>) returns (featured: seq<Game>, newReleases: seq<Game>)
    ensures featured == Featured(games[..])
    ensures IsSubsequence(featured, games[..])
    ensures newReleases == NewReleases(games[..])
    ensures SortedDesc(newReleases, ReleaseKey())
  {
    featured := Featured(games[..]);
    FeaturedAreFirstRated(games[..]);
    newReleases := NewReleases(games[..]);
  }

  // ---------------------------------------------------------------------
  // Genre and platform options (app/page.tsx:70-71)

  /** `[...new Set(games.map((game) => game.genre))]` */
  function Genres(games: seq<Game>): (r: seq<string>)
    ensures NoDuplicates(r)
    ensures forall x :: x in r <==> exists g :: g in games && g.genre == x
  {
    var all := seq(|games|, i requires 0 <= i < |games| => games[i].genre);
    assert forall x :: x in all <==> exists g :: g in games && g.genre == x by {
      forall x | exists g :: g in games && g.genre == x ensures x in all {
        var g :| g in games && g.genre == x;
        var i :| 0 <= i < |games| && games[i] == g;
        assert all[i] == x;
      }
    }
    Distinct(all)
  }

  /** `[...new Set(games.flatMap((game) => game.platform))]` */
  function Platforms(games: seq<Game>): (r: seq<string>)
    ensures NoDuplicates(r)
    ensures forall p :: p in r <==> exists g :: g in games && p in g.platforms
  {
    var lists := seq(|games|, i requires 0 <= i < |games| => games[i].platforms);
    var flat := Flatten(lists);
    assert forall p :: p in flat ==> exists g :: g in games && p in g.platforms by {
      forall p | p in flat ensures exists g :: g in games && p in g.platforms {
        var i :| 0 <= i < |lists| && p in lists[i];
        assert games[i] in games;
      }
    }
    assert forall p :: (exists g :: g in games && p in g.platforms) ==> p in flat by {
      forall p | (exists g :: g in games && p in g.platforms) ensures p in flat {
        var g :| g in games && p in g.platforms;
        var i :| 0 <= i < |games| && games[i] == g;
        assert p in lists[i];
      }
    }
    Distinct(flat)
  }
}
