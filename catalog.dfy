/** The catalog records the screen works on and the pure list operations
    behind its handlers: order-keeping filtering, the test whether an id is
    among the favorites, and the list of distinct company names. */
module Catalog {

  /** One review of a product; ratings are whole numbers here. */
  datatype Feedback = Feedback(rating: int)

  /** One product record of the `/product` response. Prices are whole
      numbers here. */
  datatype Product = Product(
    id: int,
    perfumeName: string,
    company: string,
    price: int,
    image: string,
    feedbacks: seq<Feedback>)

  // ---------------------------------------------------------------------
  // Subsequences and `filter`

  /** `a` is obtained from `b` by deleting elements, keeping the order. */
  ghost predicate IsSubsequence<T>(a: seq<T>, b: seq<T>)
    decreases |b|
  {
    if a == [] then true
    else if b == [] then false
    else (a[0] == b[0] && IsSubsequence(a[1..], b[1..])) || IsSubsequence(a, b[1..])
  }

  lemma {:induction false} SubsequenceReflexive<T>(s: seq<T>)
    ensures IsSubsequence(s, s)
    decreases |s|
  {
    if s != [] {
      SubsequenceReflexive(s[1..]);
    }
  }

  /** The elements of `s` that satisfy `f`, in their order. */
  function Filter<T(!new)>(s: seq<T>, f: T -> bool): (r: seq<T>)
    ensures |r| <= |s|
    ensures forall x :: x in r <==> x in s && f(x)
  {
    if s == [] then [] else (if f(s[0]) then [s[0]] else []) + Filter(s[1..], f)
  }

  lemma {:induction false} FilterIsSubsequence<T(!new)>(s: seq<T>, f: T -> bool)
    ensures IsSubsequence(Filter(s, f), s)
  {
    if s != [] {
      FilterIsSubsequence(s[1..], f);
      if f(s[0]) {
        assert Filter(s, f) == [s[0]] + Filter(s[1..], f);
        assert Filter(s, f)[1..] == Filter(s[1..], f);
      } else {
        assert Filter(s, f) == Filter(s[1..], f);
      }
    }
  }

  /** Every element that passes keeps all its occurrences; every element
      that fails loses all of them. */
  lemma {:induction false} FilterCounts<T(!new)>(s: seq<T>, f: T -> bool, x: T)
    ensures multiset(Filter(s, f))[x] == if f(x) then multiset(s)[x] else 0
  {
    if s != [] {
      FilterCounts(s[1..], f, x);
      assert s == [s[0]] + s[1..];
      assert multiset(s) == multiset{s[0]} + multiset(s[1..]);
    }
  }

  lemma {:induction false} FilterKeepsAll<T(!new)>(s: seq<T>, f: T -> bool)
    requires forall x :: x in s ==> f(x)
    ensures Filter(s, f) == s
  {
    if s != [] {
      FilterKeepsAll(s[1..], f);
      assert s == [s[0]] + s[1..];
    }
  }

  lemma {:induction false} FilterCongruent<T(!new)>(s: seq<T>, f: T -> bool, g: T -> bool)
    requires forall x :: f(x) == g(x)
    ensures Filter(s, f) == Filter(s, g)
  {
    if s != [] {
      FilterCongruent(s[1..], f, g);
    }
  }

  // ---------------------------------------------------------------------
  // The three display filters

  /** The products made by company `c`, in their order. */
  function ByCompany(ps: seq<Product>, c: string): (r: seq<Product>)
    ensures forall p :: p in r <==> p in ps && p.company == c
  {
    Filter(ps, (p: Product) => p.company == c)
  }

  /** The products priced from `min` to `max`, both bounds included, in
      their order. */
  function ByPriceRange(ps: seq<Product>, min: int, max: int): (r: seq<Product>)
    ensures forall p :: p in r <==> p in ps && min <= p.price <= max
  {
    Filter(ps, (p: Product) => min <= p.price && p.price <= max)
  }

  /** One character lower-cased; only the ASCII capitals change. */
  function LowerChar(c: char): char {
    if 'A' <= c <= 'Z' then (c as int + 32) as char else c
  }

  /** A text lower-cased character by character. */
  function Lower(s: string): string {
    seq(|s|, i requires 0 <= i < |s| => LowerChar(s[i]))
  }

  /** Lower-cased text keeps its length, holds no ASCII capital, and
      differs from the original only where the original had a capital. */
  lemma LowerHasNoCapitals(s: string)
    ensures |Lower(s)| == |s|
    ensures forall i :: 0 <= i < |s| ==> !('A' <= Lower(s)[i] <= 'Z')
    ensures forall i :: 0 <= i < |s| && Lower(s)[i] != s[i] ==> 'A' <= s[i] <= 'Z'
  {
  }

  /** `t` occurs in `s` as a contiguous block, tried at each position from
      the left. */
  predicate Includes(s: string, t: string)
    decreases |s|
  {
    (|t| <= |s| && s[..|t|] == t) || (|s| > 0 && Includes(s[1..], t))
  }

  /** `t` sits in `s` starting at position `k`. */
  predicate OccursAt(s: string, t: string, k: int) {
    0 <= k && k + |t| <= |s| && s[k..k + |t|] == t
  }

  /** The left-to-right search finds `t` exactly when `t` occurs somewhere
      in `s`. */
  lemma {:induction false} IncludesIffOccurs(s: string, t: string)
    ensures Includes(s, t) <==> exists k :: OccursAt(s, t, k)
    decreases |s|
  {
    if |s| > 0 {
      IncludesIffOccurs(s[1..], t);
      if Includes(s[1..], t) {
        var k :| OccursAt(s[1..], t, k);
        assert s[1..][k..k + |t|] == s[k + 1..k + 1 + |t|];
        assert OccursAt(s, t, k + 1);
      }
    }
    if k :| OccursAt(s, t, k) {
      if k == 0 {
        assert s[..|t|] == t;
      } else {
        assert s[1..][k - 1..k - 1 + |t|] == s[k..k + |t|];
        assert OccursAt(s[1..], t, k - 1);
      }
    }
    if |t| <= |s| && s[..|t|] == t {
      assert OccursAt(s, t, 0);
    }
  }

  /** A text longer than the name never matches. */
  lemma {:induction false} TooShortExcludes(s: string, t: string)
    requires |s| < |t|
    ensures !Includes(s, t)
    decreases |s|
  {
    if |s| > 0 {
      TooShortExcludes(s[1..], t);
    }
  }

  predicate NameMatches(p: Product, text: string) {
    Includes(Lower(p.perfumeName), Lower(text))
  }

  /** The products whose name contains `text`, neither side's case
      mattering, in their order. */
  function BySearch(ps: seq<Product>, text: string): (r: seq<Product>)
    ensures forall p :: p in r <==> p in ps && NameMatches(p, text)
  {
    Filter(ps, (p: Product) => NameMatches(p, text))
  }

  /** Each filter keeps exactly the matching records of the list it is
      given, every occurrence of them, in order. */
  lemma ByCompanyIsSubsequence(ps: seq<Product>, c: string)
    ensures IsSubsequence(ByCompany(ps, c), ps)
    ensures forall p :: multiset(ByCompany(ps, c))[p] == if p.company == c then multiset(ps)[p] else 0
  {
    FilterIsSubsequence(ps, (p: Product) => p.company == c);
    forall p: Product ensures multiset(ByCompany(ps, c))[p] == if p.company == c then multiset(ps)[p] else 0 {
      FilterCounts(ps, (p: Product) => p.company == c, p);
    }
  }

  lemma ByPriceRangeIsSubsequence(ps: seq<Product>, min: int, max: int)
    ensures IsSubsequence(ByPriceRange(ps, min, max), ps)
    ensures forall p :: multiset(ByPriceRange(ps, min, max))[p] == if min <= p.price <= max then multiset(ps)[p] else 0
  {
    FilterIsSubsequence(ps, (p: Product) => min <= p.price && p.price <= max);
    forall p: Product
      ensures multiset(ByPriceRange(ps, min, max))[p] == if min <= p.price <= max then multiset(ps)[p] else 0
    {
      FilterCounts(ps, (p: Product) => min <= p.price && p.price <= max, p);
    }
  }

  lemma BySearchIsSubsequence(ps: seq<Product>, text: string)
    ensures IsSubsequence(BySearch(ps, text), ps)
    ensures forall p :: multiset(BySearch(ps, text))[p] == if NameMatches(p, text) then multiset(ps)[p] else 0
  {
    FilterIsSubsequence(ps, (p: Product) => NameMatches(p, text));
    forall p: Product ensures multiset(BySearch(ps, text))[p] == if NameMatches(p, text) then multiset(ps)[p] else 0 {
      FilterCounts(ps, (p: Product) => NameMatches(p, text), p);
    }
  }

  /** A product priced exactly at either bound is shown. */
  lemma PriceBoundsInclusive(ps: seq<Product>, p: Product, min: int, max: int)
    requires p in ps && min <= max
    requires p.price == min || p.price == max
    ensures p in ByPriceRange(ps, min, max)
  {
  }

  /** An empty search text shows the whole list. */
  lemma SearchEmptyKeepsAll(ps: seq<Product>)
    ensures BySearch(ps, "") == ps
  {
    forall p | p in ps ensures NameMatches(p, "") {
      assert Lower(p.perfumeName)[..0] == Lower("");
    }
    FilterKeepsAll(ps, (p: Product) => NameMatches(p, ""));
  }

  lemma LowerIdempotent(s: string)
    ensures Lower(Lower(s)) == Lower(s)
  {
  }

  /** The case of the search text does not matter. */
  lemma SearchIgnoresCase(ps: seq<Product>, text: string)
    ensures BySearch(ps, Lower(text)) == BySearch(ps, text)
  {
    LowerIdempotent(text);
    FilterCongruent(ps, (p: Product) => NameMatches(p, Lower(text)), (p: Product) => NameMatches(p, text));
  }

  // ---------------------------------------------------------------------
  // Favorites

  /** Some favorite has the id `id`. */
  predicate IsFavorite(favs: seq<Product>, id: int) {
    exists k :: 0 <= k < |favs| && favs[k].id == id
  }

  /** The membership test holds exactly when some favorite has the id. */
  lemma IsFavoriteIffSome(favs: seq<Product>, id: int)
    ensures IsFavorite(favs, id) <==> exists p :: p in favs && p.id == id
  {
    if p :| p in favs && p.id == id {
      var k :| 0 <= k < |favs| && favs[k] == p;
    }
  }

  /** The favorites whose id differs from `id`, in their order. */
  function WithoutId(favs: seq<Product>, id: int): (r: seq<Product>)
    ensures forall x :: x in r <==> x in favs && x.id != id
  {
    Filter(favs, (x: Product) => x.id != id)
  }

  /** Removing drops every entry with the id, keeps every other entry
      with its multiplicity, and keeps the order. */
  lemma RemovedIsNotFavorite(favs: seq<Product>, id: int)
    ensures !IsFavorite(WithoutId(favs, id), id)
    ensures IsSubsequence(WithoutId(favs, id), favs)
    ensures forall x :: multiset(WithoutId(favs, id))[x] == if x.id == id then 0 else multiset(favs)[x]
  {
    var r := WithoutId(favs, id);
    forall k | 0 <= k < |r| ensures r[k].id != id {
      assert r[k] in r;
    }
    FilterIsSubsequence(favs, (x: Product) => x.id != id);
    forall x: Product ensures multiset(r)[x] == if x.id == id then 0 else multiset(favs)[x] {
      FilterCounts(favs, (x: Product) => x.id != id, x);
    }
  }

  /** Removing an id that is not a favorite changes nothing. */
  lemma RemoveAbsentIsIdentity(favs: seq<Product>, id: int)
    requires !IsFavorite(favs, id)
    ensures WithoutId(favs, id) == favs
  {
    forall x | x in favs ensures x.id != id {
      var k :| 0 <= k < |favs| && favs[k] == x;
    }
    FilterKeepsAll(favs, (x: Product) => x.id != id);
  }

  /** Appending makes the item a favorite; nothing is deduplicated, so the
      item gains one more occurrence even if it was already there. */
  lemma AppendedIsFavorite(favs: seq<Product>, item: Product)
    ensures IsFavorite(favs + [item], item.id)
    ensures multiset(favs + [item])[item] == multiset(favs)[item] + 1
  {
    assert (favs + [item])[|favs|] == item;
  }

  // ---------------------------------------------------------------------
  // Distinct companies

  ghost predicate NoDuplicates<T>(s: seq<T>) {
    forall i, j :: 0 <= i < j < |s| ==> s[i] != s[j]
  }

  /** The company of each product, in the products' order. */
  function CompanyNames(ps: seq<Product>): seq<string> {
    seq(|ps|, i requires 0 <= i < |ps| => ps[i].company)
  }

  /** The distinct values of `s`, each at the place of its first
      occurrence, as a set built from `s` and listed back gives them. */
  function Distinct<T(==,!new)>(s: seq<T>): (d: seq<T>)
    ensures forall x :: x in d <==> x in s
    ensures forall i, j :: 0 <= i < j < |d| ==> d[i] != d[j]
    ensures IsSubsequence(d, s)
  {
    if s == [] then []
    else
      var init, last := s[..|s| - 1], s[|s| - 1];
      assert s == init + [last];
      var d := Distinct(init);
      if last in d then
        SubsequenceExtend(d, init, last);
        d
      else
        SubsequenceAppend(d, init, last);
        d + [last]
  }

  lemma {:induction false} SubsequenceExtend<T>(a: seq<T>, b: seq<T>, x: T)
    requires IsSubsequence(a, b)
    ensures IsSubsequence(a, b + [x])
    decreases |b|
  {
    if a != [] && b != [] {
      assert (b + [x])[1..] == b[1..] + [x];
      if a[0] == b[0] && IsSubsequence(a[1..], b[1..]) {
        SubsequenceExtend(a[1..], b[1..], x);
      } else {
        SubsequenceExtend(a, b[1..], x);
      }
    }
  }

  lemma {:induction false} SubsequenceAppend<T>(a: seq<T>, b: seq<T>, x: T)
    requires IsSubsequence(a, b)
    ensures IsSubsequence(a + [x], b + [x])
    decreases |b|
  {
    if a == [] {
      SubsequenceReflexive([x]);
      AnyIsSubsequenceOfLonger([x], b);
      assert a + [x] == [x];
    } else {
      assert b != [];
      assert (a + [x])[1..] == a[1..] + [x];
      assert (b + [x])[1..] == b[1..] + [x];
      if a[0] == b[0] && IsSubsequence(a[1..], b[1..]) {
        SubsequenceAppend(a[1..], b[1..], x);
      } else {
        SubsequenceAppend(a, b[1..], x);
      }
    }
  }

  /** A sequence is a subsequence of itself behind any prefix. */
  lemma {:induction false} AnyIsSubsequenceOfLonger<T>(a: seq<T>, b: seq<T>)
    ensures IsSubsequence(a, b + a)
    decreases |b|
  {
    if b == [] {
      SubsequenceReflexive(a);
      assert b + a == a;
    } else if a != [] {
      AnyIsSubsequenceOfLonger(a, b[1..]);
      assert (b + a)[1..] == b[1..] + a;
    }
  }

  /** The company dropdown's entries for a product list. */
  function Companies(ps: seq<Product>): seq<string> {
    Distinct(CompanyNames(ps))
  }

  /** A company is listed exactly when some product is made by it, and
      no company is listed twice. */
  lemma CompaniesListed(ps: seq<Product>)
    ensures forall c :: c in Companies(ps) <==> exists p :: p in ps && p.company == c
    ensures NoDuplicates(Companies(ps))
  {
    var names := CompanyNames(ps);
    forall c ensures c in names <==> exists p :: p in ps && p.company == c {
      if c in names {
        var i :| 0 <= i < |names| && names[i] == c;
        assert ps[i] in ps;
      }
      if p :| p in ps && p.company == c {
        var i :| 0 <= i < |ps| && ps[i] == p;
        assert names[i] == c;
      }
    }
  }

  /** Number of records shown when each company in `cs` is picked in turn. */
  ghost function ShownAcross(ps: seq<Product>, cs: seq<string>): nat {
    if cs == [] then 0 else |ByCompany(ps, cs[0])| + ShownAcross(ps, cs[1..])
  }

  lemma {:induction false} ShownAcrossEmpty(cs: seq<string>)
    ensures ShownAcross([], cs) == 0
  {
    if cs != [] {
      ShownAcrossEmpty(cs[1..]);
    }
  }

  lemma {:induction false} ShownAcrossCons(p: Product, rest: seq<Product>, cs: seq<string>)
    ensures ShownAcross([p] + rest, cs) == multiset(cs)[p.company] + ShownAcross(rest, cs)
  {
    if cs != [] {
      ShownAcrossCons(p, rest, cs[1..]);
      assert ([p] + rest)[1..] == rest;
      assert cs == [cs[0]] + cs[1..];
      assert multiset(cs) == multiset{cs[0]} + multiset(cs[1..]);
    }
  }

  lemma {:induction false} OccursOnce(cs: seq<string>, c: string)
    requires NoDuplicates(cs) && c in cs
    ensures multiset(cs)[c] == 1
  {
    assert cs == [cs[0]] + cs[1..];
    assert multiset(cs) == multiset{cs[0]} + multiset(cs[1..]);
    if cs[0] == c {
      assert c !in cs[1..] by {
        forall k | 0 <= k < |cs| - 1 ensures cs[1..][k] != c {
          assert cs[k + 1] != cs[0];
        }
      }
    } else {
      OccursOnce(cs[1..], c);
    }
  }

  lemma {:induction false} ShownAcrossCovers(ps: seq<Product>, cs: seq<string>)
    requires NoDuplicates(cs)
    requires forall p :: p in ps ==> p.company in cs
    ensures ShownAcross(ps, cs) == |ps|
  {
    if ps == [] {
      ShownAcrossEmpty(cs);
    } else {
      assert ps == [ps[0]] + ps[1..];
      ShownAcrossCons(ps[0], ps[1..], cs);
      OccursOnce(cs, ps[0].company);
      ShownAcrossCovers(ps[1..], cs);
    }
  }

  /** Picking every company of the dropdown in turn shows every product
      exactly once in total: each product is under its own company, and
      the lists add up to the whole catalog. */
  lemma CompanyFiltersPartition(ps: seq<Product>)
    ensures forall p :: p in ps ==> p.company in Companies(ps) && p in ByCompany(ps, p.company)
    ensures ShownAcross(ps, Companies(ps)) == |ps|
  {
    CompaniesListed(ps);
    ShownAcrossCovers(ps, Companies(ps));
  }
}
