/**
 * Searching the MCP market: the SQL filter of internal/store/pgstore/mcpmarket.go against the in-memory filter of
 * internal/store/memstore/mcpmarket.go. The LIKE predicate is that of ISO/IEC 9075-2 section 8.5 with `\` as escape.
 */
module LikeSearch {
  import opened Strings

  // ---- the <like predicate> ----

  const ESCAPE := '\\'

  predicate IsWildcard(c: char) {
    c in {ESCAPE, '%', '_'}
  }

  /** A pattern whose every escape stands before a wildcard or an escape; any other is a data exception. */
  predicate WellFormed(pattern: string) {
    pattern == [] ||
    if pattern[0] == ESCAPE then |pattern| > 1 && IsWildcard(pattern[1]) && WellFormed(pattern[2..])
    else WellFormed(pattern[1..])
  }

  predicate Like(text: string, pattern: string)
    requires WellFormed(pattern)
    decreases |pattern|
  {
    if pattern == [] then text == []
    else if pattern[0] == ESCAPE then text != [] && text[0] == pattern[1] && Like(text[1..], pattern[2..])
    else if pattern[0] == '%' then exists k | 0 <= k <= |text| :: Like(text[k..], pattern[1..])
    else if pattern[0] == '_' then text != [] && Like(text[1..], pattern[1..])
    else text != [] && text[0] == pattern[0] && Like(text[1..], pattern[1..])
  }

  // ---- likeContains ----

  /** strings.ToLower and lower(): one character mapping for both, whatever it is. */
  function Lower(fold: char -> char, s: string): string {
    seq(|s|, i requires 0 <= i < |s| => fold(s[i]))
  }

  /** What the replacer of likeContains does to a text: an escape before every wildcard. */
  function Escaped(s: string): string {
    if s == [] then []
    else Escaped(s[..|s| - 1]) + if IsWildcard(s[|s| - 1]) then [ESCAPE, s[|s| - 1]] else [s[|s| - 1]]
  }

  function Pattern(fold: char -> char, keyword: string): string {
    "%" + Escaped(Lower(fold, keyword)) + "%"
  }

  method LikeContains(fold: char -> char, keyword: string) returns (pattern: string)
    ensures pattern == Pattern(fold, keyword)
    ensures WellFormed(pattern) && forall text :: Like(text, pattern) <==> Contains(text, Lower(fold, keyword))
  {
    var lowered := Lower(fold, keyword);
    var replaced := "";
    for i := 0 to |lowered|
      invariant replaced == Escaped(lowered[..i])
    {
      assert lowered[..i + 1][..i] == lowered[..i];
      match lowered[i]
      case '\\' => replaced := replaced + "\\\\";
      case '%' => replaced := replaced + "\\%";
      case '_' => replaced := replaced + "\\_";
      case c => replaced := replaced + [c];
    }
    assert lowered[..|lowered|] == lowered;
    pattern := "%" + replaced + "%";
    EscapingPreservesMeaning(fold, keyword, "");
    forall text ensures WellFormed(pattern) && (Like(text, pattern) <==> Contains(text, lowered)) {
      EscapingPreservesMeaning(fold, keyword, text);
    }
  }

  lemma {:induction false} EscapedFront(s: string)
    requires s != []
    ensures Escaped(s) == (if IsWildcard(s[0]) then [ESCAPE, s[0]] else [s[0]]) + Escaped(s[1..])
  {
    if |s| > 1 {
      EscapedFront(s[..|s| - 1]);
      assert s[..|s| - 1][1..] == s[1..][..|s| - 2];
    } else {
      assert s[..0] == [] && s[1..] == [];
    }
  }

  /** An escaped text followed by % matches exactly the texts that start with it. */
  lemma {:induction false} EscapedIsLiteral(part: string, text: string)
    ensures WellFormed(Escaped(part) + "%")
    ensures Like(text, Escaped(part) + "%") <==> part <= text
    decreases |part|
  {
    var pattern := Escaped(part) + "%";
    if part == [] {
      assert pattern == "%" && "%"[1..] == [] && text[|text|..] == [];
      assert WellFormed("%") && Like(text[|text|..], []);
    } else {
      EscapedFront(part);
      EscapedIsLiteral(part[1..], if text == [] then [] else text[1..]);
      var rest := Escaped(part[1..]) + "%";
      if IsWildcard(part[0]) {
        assert pattern == [ESCAPE, part[0]] + rest && pattern[2..] == rest;
      } else {
        assert pattern == [part[0]] + rest && pattern[1..] == rest;
      }
      if text != [] && text[0] == part[0] {
        assert part <= text <==> part[1..] <= text[1..];
      }
    }
  }

  /** The pattern of likeContains matches exactly the texts that contain the lowered keyword. */
  lemma EscapingPreservesMeaning(fold: char -> char, keyword: string, text: string)
    ensures WellFormed(Pattern(fold, keyword))
    ensures Like(text, Pattern(fold, keyword)) <==> Contains(text, Lower(fold, keyword))
  {
    var lowered := Lower(fold, keyword);
    var rest := Escaped(lowered) + "%";
    assert Pattern(fold, keyword) == "%" + rest && Pattern(fold, keyword)[1..] == rest;
    forall k | 0 <= k <= |text| ensures WellFormed(rest) && (Like(text[k..], rest) <==> lowered <= text[k..]) {
      EscapedIsLiteral(lowered, text[k..]);
    }
    EscapedIsLiteral(lowered, text);
  }

  // ---- the two filters ----

  datatype Record = Record(id: string, name: string, author: string, summary: string, category: string,
                           hosted: bool, needsOnline: bool, source: string, rank: int)

  datatype Query = Query(keyword: string, category: string, serviceType: string, needsOnline: string, source: string)

  predicate NeedsOnlineOk(rec: Record, filter: string) {
    if filter == "true" then rec.needsOnline else if filter == "false" then !rec.needsOnline else true
  }

  /** `marketVisible`, with the keyword already lowered. */
  predicate MarketVisible(fold: char -> char, rec: Record, categoryName: string, q: Query, kw: string) {
    if q.category != "" && rec.category != q.category then false
    else if q.source != "" && rec.source != q.source then false
    else if q.serviceType == "hosted" && !rec.hosted then false
    else if q.serviceType == "local" && rec.hosted then false
    else if kw == "" then true
    else
      || Contains(Lower(fold, rec.name), kw)
      || Contains(Lower(fold, rec.author), kw)
      || Contains(Lower(fold, rec.summary), kw)
      || Contains(Lower(fold, rec.category), kw)
      || Contains(Lower(fold, categoryName), kw)
  }

  predicate MemorySelects(fold: char -> char, rec: Record, names: map<string, string>, q: Query) {
    && NeedsOnlineOk(rec, q.needsOnline)
    && MarketVisible(fold, rec, CategoryName(names, rec), q, Lower(fold, q.keyword))
  }

  /** names[rec.Category] in Go, and COALESCE(c.name, '') over the left join. */
  function CategoryName(names: map<string, string>, rec: Record): string {
    if rec.category in names then names[rec.category] else ""
  }

  ghost predicate LikeColumn(fold: char -> char, column: string, keyword: string) {
    WellFormed(Pattern(fold, keyword)) && Like(Lower(fold, column), Pattern(fold, keyword))
  }

  /** The WHERE conditions that `mcpMarketFilter` chains, with the search part. */
  ghost predicate SqlSelects(fold: char -> char, rec: Record, names: map<string, string>, q: Query) {
    && (q.needsOnline == "true" ==> rec.needsOnline)
    && (q.needsOnline == "false" ==> !rec.needsOnline)
    && (q.category != "" ==> rec.category == q.category)
    && (q.serviceType == "hosted" ==> rec.hosted)
    && (q.serviceType == "local" ==> !rec.hosted)
    && (q.source != "" ==> rec.source == q.source)
    && (q.keyword != "" ==>
          || LikeColumn(fold, rec.name, q.keyword)
          || LikeColumn(fold, rec.author, q.keyword)
          || LikeColumn(fold, rec.summary, q.keyword)
          || LikeColumn(fold, rec.category, q.keyword)
          || LikeColumn(fold, CategoryName(names, rec), q.keyword))
  }

  /** Both stores select the same records for every query. */
  lemma FiltersAgree(fold: char -> char, rec: Record, names: map<string, string>, q: Query)
    ensures SqlSelects(fold, rec, names, q) <==> MemorySelects(fold, rec, names, q)
  {
    forall column ensures LikeColumn(fold, column, q.keyword)
        <==> Contains(Lower(fold, column), Lower(fold, q.keyword)) {
      EscapingPreservesMeaning(fold, q.keyword, Lower(fold, column));
    }
  }

  // ---- the two orders ----

  predicate NameHit(fold: char -> char, rec: Record, kw: string) {
    Contains(Lower(fold, rec.name), kw) || Contains(Lower(fold, rec.author), kw)
  }

  /** `marketLess`. */
  predicate MarketLess(fold: char -> char, a: Record, b: Record, kw: string) {
    var hitA, hitB := NameHit(fold, a, kw), NameHit(fold, b, kw);
    if kw != "" && hitA != hitB then hitA
    else if a.rank != b.rank then a.rank < b.rank
    else LexLess(a.id, b.id)
  }

  /** ORDER BY: the CASE over the two LIKEs only when there is a keyword, then rank, then id. */
  ghost predicate SqlLess(fold: char -> char, a: Record, b: Record, keyword: string) {
    var caseA := if LikeColumn(fold, a.name, keyword) || LikeColumn(fold, a.author, keyword) then 0 else 1;
    var caseB := if LikeColumn(fold, b.name, keyword) || LikeColumn(fold, b.author, keyword) then 0 else 1;
    if keyword != "" && caseA != caseB then caseA < caseB
    else if a.rank != b.rank then a.rank < b.rank
    else LexLess(a.id, b.id)
  }

  lemma OrdersAgree(fold: char -> char, a: Record, b: Record, keyword: string)
    ensures SqlLess(fold, a, b, keyword) <==> MarketLess(fold, a, b, Lower(fold, keyword))
    ensures a.id != b.id
        ==> MarketLess(fold, a, b, Lower(fold, keyword)) != MarketLess(fold, b, a, Lower(fold, keyword))
  {
    forall column ensures LikeColumn(fold, column, keyword) <==> Contains(Lower(fold, column), Lower(fold, keyword)) {
      EscapingPreservesMeaning(fold, keyword, Lower(fold, column));
    }
    LexLessTotal(a.id, b.id);
  }

  // ---- pages ----

  predicate SortedBy(fold: char -> char, kw: string, page: seq<Record>) {
    forall i, j | 0 <= i < j < |page| :: MarketLess(fold, page[i], page[j], kw)
  }

  lemma MarketLessTransitive(fold: char -> char, a: Record, b: Record, c: Record, kw: string)
    requires MarketLess(fold, a, b, kw) && MarketLess(fold, b, c, kw)
    ensures MarketLess(fold, a, c, kw)
  {
    if LexLess(a.id, b.id) && LexLess(b.id, c.id) {
      LexLessTransitive(a.id, b.id, c.id);
    }
  }

  lemma {:induction false} SortedListsAgree(fold: char -> char, kw: string, a: seq<Record>, b: seq<Record>)
    requires SortedBy(fold, kw, a) && SortedBy(fold, kw, b)
    requires forall rec :: rec in a <==> rec in b
    ensures a == b
  {
    forall rec: Record ensures !MarketLess(fold, rec, rec, kw) {
      LexLessTotal(rec.id, rec.id);
    }
    if a != [] {
      assert a[0] in b;
    }
    if b != [] {
      assert b[0] in a;
      if a[0] != b[0] {
        MarketLessTransitive(fold, a[0], b[0], a[0], kw);
        assert false;
      }
      assert a == [a[0]] + a[1..] && b == [b[0]] + b[1..];
      assert forall j | 0 < j < |a| :: MarketLess(fold, a[0], a[j], kw);
      assert forall j | 0 < j < |b| :: MarketLess(fold, b[0], b[j], kw);
      assert a[0] !in a[1..] && b[0] !in b[1..];
      forall rec ensures rec in a[1..] <==> rec in b[1..] {
        assert rec in a[1..] <==> rec in a && rec != a[0];
        assert rec in b[1..] <==> rec in b && rec != b[0];
      }
      SortedListsAgree(fold, kw, a[1..], b[1..]);
    }
  }

  /**
   * The list the memory store sorts and the list PostgreSQL returns are equal, so the same LIMIT and OFFSET cut the
   * same page out of both and both report the same total.
   */
  lemma ListsAgree(fold: char -> char, stored: set<Record>, names: map<string, string>, q: Query,
                   memory: seq<Record>, sql: seq<Record>)
    requires forall rec :: rec in memory <==> rec in stored && MemorySelects(fold, rec, names, q)
    requires forall i, j | 0 <= i < j < |memory| :: MarketLess(fold, memory[i], memory[j], Lower(fold, q.keyword))
    requires forall rec :: rec in sql <==> rec in stored && SqlSelects(fold, rec, names, q)
    requires forall i, j | 0 <= i < j < |sql| :: SqlLess(fold, sql[i], sql[j], q.keyword)
    ensures memory == sql
  {
    forall rec ensures rec in memory <==> rec in sql {
      FiltersAgree(fold, rec, names, q);
    }
    forall i, j | 0 <= i < j < |sql| ensures MarketLess(fold, sql[i], sql[j], Lower(fold, q.keyword)) {
      OrdersAgree(fold, sql[i], sql[j], q.keyword);
    }
    SortedListsAgree(fold, Lower(fold, q.keyword), memory, sql);
  }

  /** The record contains the keyword somewhere, letter case aside. */
  predicate Mentions(fold: char -> char, rec: Record, categoryName: string, keyword: string) {
    exists column | column in {rec.name, rec.author, rec.summary, rec.category, categoryName} ::
      Contains(Lower(fold, column), Lower(fold, keyword))
  }

  /** What both filters select: each condition of the query that is there holds of the record. */
  lemma SelectsExactly(fold: char -> char, rec: Record, names: map<string, string>, q: Query)
    ensures MemorySelects(fold, rec, names, q) <==>
      && (q.needsOnline == "true" ==> rec.needsOnline) && (q.needsOnline == "false" ==> !rec.needsOnline)
      && q.category in {"", rec.category} && q.source in {"", rec.source}
      && (q.serviceType == "hosted" ==> rec.hosted) && (q.serviceType == "local" ==> !rec.hosted)
      && Mentions(fold, rec, if rec.category in names then names[rec.category] else "", q.keyword)
  {
    if q.keyword == "" {
      assert rec.name in {rec.name} && Lower(fold, rec.name)[0..] == Lower(fold, rec.name);
      assert Contains(Lower(fold, rec.name), Lower(fold, q.keyword));
    }
  }
}
