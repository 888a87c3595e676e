// BookSpecification.withSearchParams: the JPA Specification the book search
// runs, kept as the list of conjuncts it ANDs together, and what a book must
// satisfy to be selected by it.
module BookSpecification {
  import opened Common
  import opened Text
  import opened Store

  /** BookSearchParametersDto: each filter may be null. */
  datatype SearchParams = SearchParams(title: Option<string>, author: Option<string>, isbn: Option<string>)

  /** The book columns a filter can be put on. */
  datatype Column = Title | Author | Isbn

  /** One conjunct: `deleted` is false, or `lower(column) LIKE '%pattern%'`. */
  datatype Criterion = NotDeleted | LikeLower(column: Column, pattern: string)

  function ColumnOf(b: Book, c: Column): string
  {
    match c
    case Title => b.title
    case Author => b.author
    case Isbn => b.isbn
  }

  /** A filter takes part when it is non-null and not blank. */
  predicate Applies(filter: Option<string>)
  {
    filter.Some? && !IsBlank(filter.value)
  }

  /** The conjunct a filter adds on a column, if it takes part. */
  function FilterOn(c: Column, filter: Option<string>): (spec: seq<Criterion>)
    ensures Applies(filter) ==> spec == [LikeLower(c, Lower(filter.value))]
    ensures !Applies(filter) ==> spec == []
  {
    if Applies(filter) then [LikeLower(c, Lower(filter.value))] else []
  }

  /** withSearchParams: `deleted = false`, then one conjunct per applied filter, title, author, isbn. */
  function WithSearchParams(p: SearchParams): (spec: seq<Criterion>)
    ensures |spec| >= 1 && spec[0] == NotDeleted
    ensures |spec| == 1 + (if Applies(p.title) then 1 else 0) + (if Applies(p.author) then 1 else 0)
                        + (if Applies(p.isbn) then 1 else 0)
  {
    [NotDeleted] + FilterOn(Title, p.title) + FilterOn(Author, p.author) + FilterOn(Isbn, p.isbn)
  }

  /** A conjunct evaluated on a book row. */
  predicate Holds(c: Criterion, b: Book)
  {
    match c
    case NotDeleted => !b.deleted
    case LikeLower(col, pattern) => Contains(Lower(ColumnOf(b, col)), pattern)
  }

  /** A book is selected when every conjunct holds. */
  predicate Satisfies(spec: seq<Criterion>, b: Book)
  {
    forall k :: 0 <= k < |spec| ==> Holds(spec[k], b)
  }

  /** The search as stated in words: not deleted, and for each filter that is given and not
      blank, the field contains the filter, ignoring case. */
  predicate FilterMatches(filter: Option<string>, value: string)
  {
    Applies(filter) ==> Contains(Lower(value), Lower(filter.value))
  }

  predicate Matches(p: SearchParams, b: Book)
  {
    && !b.deleted
    && FilterMatches(p.title, b.title)
    && FilterMatches(p.author, b.author)
    && FilterMatches(p.isbn, b.isbn)
  }

  lemma SatisfiesAppend(s: seq<Criterion>, t: seq<Criterion>, b: Book)
    ensures Satisfies(s + t, b) <==> Satisfies(s, b) && Satisfies(t, b)
  {
    if Satisfies(s, b) && Satisfies(t, b) {
      forall k | 0 <= k < |s + t| ensures Holds((s + t)[k], b) {
        if k >= |s| {
          assert (s + t)[k] == t[k - |s|];
        }
      }
    }
    if Satisfies(s + t, b) {
      forall k | 0 <= k < |s| ensures Holds(s[k], b) {
        assert (s + t)[k] == s[k];
      }
      forall k | 0 <= k < |t| ensures Holds(t[k], b) {
        assert (s + t)[|s| + k] == t[k];
      }
    }
  }

  lemma SatisfiesFilter(c: Column, filter: Option<string>, b: Book)
    ensures Satisfies(FilterOn(c, filter), b) <==> FilterMatches(filter, ColumnOf(b, c))
  {
    if Applies(filter) {
      assert FilterOn(c, filter)[0] == LikeLower(c, Lower(filter.value));
    }
  }

  /** The built specification selects exactly the books the search describes. */
  lemma SpecificationMeaning(p: SearchParams, b: Book)
    ensures Satisfies(WithSearchParams(p), b) <==> Matches(p, b)
  {
    var t, a, i := FilterOn(Title, p.title), FilterOn(Author, p.author), FilterOn(Isbn, p.isbn);
    SatisfiesAppend([NotDeleted] + t + a, i, b);
    SatisfiesAppend([NotDeleted] + t, a, b);
    SatisfiesAppend([NotDeleted], t, b);
    SatisfiesFilter(Title, p.title, b);
    SatisfiesFilter(Author, p.author, b);
    SatisfiesFilter(Isbn, p.isbn, b);
  }

  /** A deleted book never matches, whatever the filters. */
  lemma DeletedNeverMatches(p: SearchParams, b: Book)
    requires b.deleted
    ensures !Satisfies(WithSearchParams(p), b)
  {
    assert !Holds(WithSearchParams(p)[0], b);
  }

  /** With no filter, exactly the books that are not deleted match. */
  lemma NoFiltersMatchActive(b: Book)
    ensures Satisfies(WithSearchParams(SearchParams(None, None, None)), b) <==> !b.deleted
  {
    SpecificationMeaning(SearchParams(None, None, None), b);
  }

  /** A null or blank filter adds no condition: the specification is the one without it. */
  lemma BlankAddsNothing(p: SearchParams)
    ensures !Applies(p.title) ==> WithSearchParams(p) == WithSearchParams(p.(title := None))
    ensures !Applies(p.author) ==> WithSearchParams(p) == WithSearchParams(p.(author := None))
    ensures !Applies(p.isbn) ==> WithSearchParams(p) == WithSearchParams(p.(isbn := None))
  {
  }

  /** `q` keeps every filter of `p` that takes part, and may add more. */
  predicate Stronger(q: SearchParams, p: SearchParams)
  {
    && (Applies(p.title) ==> q.title == p.title)
    && (Applies(p.author) ==> q.author == p.author)
    && (Applies(p.isbn) ==> q.isbn == p.isbn)
  }

  /** The conjuncts are ANDed: enabling more filters never selects more books. */
  lemma MoreFiltersFewerMatches(p: SearchParams, q: SearchParams, b: Book)
    requires Stronger(q, p)
    requires Satisfies(WithSearchParams(q), b)
    ensures Satisfies(WithSearchParams(p), b)
  {
    SpecificationMeaning(p, b);
    SpecificationMeaning(q, b);
  }

  /** Two filters that agree once lower-cased. */
  predicate SameUpToCase(f: Option<string>, g: Option<string>)
  {
    (f.None? && g.None?) || (f.Some? && g.Some? && Lower(f.value) == Lower(g.value))
  }

  lemma FilterUpToCase(c: Column, f: Option<string>, g: Option<string>)
    requires SameUpToCase(f, g)
    ensures FilterOn(c, f) == FilterOn(c, g)
  {
    if f.Some? {
      BlankUnderCase(f.value, g.value);
    }
  }

  /** Only the lower-cased filters reach the query: changing the letter case of a filter
      changes nothing. */
  lemma CaseInsensitive(p: SearchParams, q: SearchParams)
    requires SameUpToCase(p.title, q.title) && SameUpToCase(p.author, q.author) && SameUpToCase(p.isbn, q.isbn)
    ensures WithSearchParams(p) == WithSearchParams(q)
  {
    FilterUpToCase(Title, p.title, q.title);
    FilterUpToCase(Author, p.author, q.author);
    FilterUpToCase(Isbn, p.isbn, q.isbn);
  }

  /** A book that is not deleted matches filters equal to its own title, author and isbn. */
  lemma MatchesOwnFields(b: Book)
    requires !b.deleted
    ensures Satisfies(WithSearchParams(SearchParams(Some(b.title), Some(b.author), Some(b.isbn))), b)
  {
    ContainsSelf(Lower(b.title));
    ContainsSelf(Lower(b.author));
    ContainsSelf(Lower(b.isbn));
    SpecificationMeaning(SearchParams(Some(b.title), Some(b.author), Some(b.isbn)), b);
  }
}
