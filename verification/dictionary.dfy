/** Dictionary entries, the reference values the forms offer in their select
    boxes, and the list operations the pages perform on them: keeping active
    entries, ordering by `order`, folding into a category-to-list map, and
    filtering by category. Lists are folded left to right, so the recursive
    definitions below peel off the LAST element. */
module Dictionary {
  import opened Wrappers

  datatype Entry = Entry(id: string, category: string, name: string, value: string, order: int, isActive: bool)

  function Last<T>(s: seq<T>): T
    requires s != []
  {
    s[|s| - 1]
  }

  function Init<T>(s: seq<T>): seq<T>
    requires s != []
  {
    s[..|s| - 1]
  }

  /** `a` is `b` with some elements removed, the rest in their original order. */
  ghost predicate Subsequence<T>(a: seq<T>, b: seq<T>)
    decreases |b|
  {
    a == [] || (b != [] && if Last(a) == Last(b) then Subsequence(Init(a), Init(b)) else Subsequence(a, Init(b)))
  }

  ghost predicate SortedByOrder(s: seq<Entry>) {
    forall i, j :: 0 <= i < j < |s| ==> s[i].order <= s[j].order
  }

  ghost function CategoriesOf(rows: seq<Entry>): set<string> {
    set e | e in rows :: e.category
  }

  /** The rows of one category, in their original order. */
  function OfCategory(rows: seq<Entry>, c: string): (r: seq<Entry>)
    ensures forall e :: e in r <==> e in rows && e.category == c
    ensures Subsequence(r, rows)
    ensures c !in CategoriesOf(rows) ==> r == []
  {
    if rows == [] then []
    else
      var r := OfCategory(Init(rows), c);
      assert rows == Init(rows) + [Last(rows)];
      if Last(rows).category == c then
        assert Init(r + [Last(rows)]) == r;
        r + [Last(rows)]
      else r
  }

  /** The rows whose `isActive` flag is set, in their original order. */
  function ActiveOnly(rows: seq<Entry>): (r: seq<Entry>)
    ensures forall e :: e in r <==> e in rows && e.isActive
    ensures Subsequence(r, rows)
    ensures forall e :: multiset(r)[e] == if e.isActive then multiset(rows)[e] else 0
  {
    if rows == [] then []
    else
      var r := ActiveOnly(Init(rows));
      assert rows == Init(rows) + [Last(rows)];
      assert multiset(rows) == multiset(Init(rows)) + multiset{Last(rows)};
      if Last(rows).isActive then
        assert Init(r + [Last(rows)]) == r;
        r + [Last(rows)]
      else r
  }

  /** Places `x` into the sorted list `s` after every entry whose order is at
      most `x.order`. */
  function Insert(x: Entry, s: seq<Entry>): (r: seq<Entry>)
    requires SortedByOrder(s)
    ensures SortedByOrder(r)
    ensures multiset(r) == multiset(s) + multiset{x}
  {
    if s == [] || Last(s).order <= x.order then
      SortedAppend(s, x);
      s + [x]
    else
      var r := Insert(x, Init(s));
      assert s == Init(s) + [Last(s)];
      assert forall e :: e in r ==> e.order <= Last(s).order by {
        forall e | e in r ensures e.order <= Last(s).order {
          assert e in multiset(r);
          if e != x {
            assert e in Init(s);
          }
        }
      }
      SortedAppend(r, Last(s));
      r + [Last(s)]
  }

  lemma SortedAppend(s: seq<Entry>, y: Entry)
    requires SortedByOrder(s)
    requires forall e :: e in s ==> e.order <= y.order
    ensures SortedByOrder(s + [y])
  {
    var t := s + [y];
    forall i, j | 0 <= i < j < |t| ensures t[i].order <= t[j].order {
      if j < |s| {
        assert t[i] == s[i] && t[j] == s[j];
      } else {
        assert t[i] == s[i] && s[i] in s;
      }
    }
  }

  /** Ascending by `order`; entries with equal order keep their input order. */
  function SortByOrder(rows: seq<Entry>): (r: seq<Entry>)
    ensures SortedByOrder(r)
    ensures multiset(r) == multiset(rows)
  {
    if rows == [] then []
    else
      assert rows == Init(rows) + [Last(rows)];
      Insert(Last(rows), SortByOrder(Init(rows)))
  }

  /** The dictionary query the form pages issue: active entries only,
      ascending by `order`. */
  function ActiveByOrder(table: seq<Entry>): (r: seq<Entry>)
    ensures SortedByOrder(r)
    ensures forall e :: e in r <==> e in table && e.isActive
    ensures forall e :: multiset(r)[e] == if e.isActive then multiset(table)[e] else 0
  {
    var r := SortByOrder(ActiveOnly(table));
    assert forall e :: e in r <==> e in multiset(r);
    assert forall e :: e in ActiveOnly(table) <==> e in multiset(ActiveOnly(table));
    r
  }

  /** The pages' fold: each row is appended to the list under its own
      category, creating the list on first use. */
  function Group(rows: seq<Entry>): (g: map<string, seq<Entry>>)
    ensures g.Keys == CategoriesOf(rows)
    ensures forall c :: c in g ==> g[c] == OfCategory(rows, c)
  {
    if rows == [] then map[]
    else
      var acc := Group(Init(rows));
      var e := Last(rows);
      var g := acc[e.category := (if e.category in acc then acc[e.category] else []) + [e]];
      AppendLast(rows);
      assert forall c :: c in g ==> g[c] == OfCategory(rows, c) by {
        forall c | c in g ensures g[c] == OfCategory(rows, c) {
          OfCategoryAppend(Init(rows), e, c);
        }
      }
      g
  }

  lemma AppendLast(rows: seq<Entry>)
    requires rows != []
    ensures rows == Init(rows) + [Last(rows)]
    ensures CategoriesOf(rows) == CategoriesOf(Init(rows)) + {Last(rows).category}
  {
    assert rows == Init(rows) + [Last(rows)];
    forall c | c in CategoriesOf(rows) ensures c in CategoriesOf(Init(rows)) + {Last(rows).category} {
      var e :| e in rows && e.category == c;
      if e != Last(rows) {
        assert e in Init(rows);
      }
    }
  }

  lemma OfCategoryAppend(rows: seq<Entry>, e: Entry, c: string)
    ensures OfCategory(rows + [e], c) == OfCategory(rows, c) + (if e.category == c then [e] else [])
  {
    var rows' := rows + [e];
    assert Init(rows') == rows && Last(rows') == e;
  }

  /** The names every plain JavaScript object inherits from
      `Object.prototype`. Looking one of them up in the fold's accumulator
      finds the inherited function or object instead of `undefined`, which has
      no `push`, so the fold throws. */
  const InheritedNames: set<string> := {
    "constructor", "__proto__", "hasOwnProperty", "isPrototypeOf",
    "propertyIsEnumerable", "toString", "toLocaleString", "valueOf",
    "__defineGetter__", "__defineSetter__", "__lookupGetter__", "__lookupSetter__"
  }

  predicate HasInheritedCategory(rows: seq<Entry>) {
    exists i :: 0 <= i < |rows| && rows[i].category in InheritedNames
  }

  /** Loading: the map stays empty unless the query succeeded with data and
      the fold got through every row; a category named like an inherited
      property makes the fold throw, and the page keeps its empty map. */
  function Load(response: Result<Option<seq<Entry>>, string>): (g: map<string, seq<Entry>>)
    ensures response.Err? || response.value.None? ==> g == map[]
    ensures response.Ok? && response.value.Some? && HasInheritedCategory(response.value.value) ==> g == map[]
    ensures response.Ok? && response.value.Some? && !HasInheritedCategory(response.value.value) ==>
              g == Group(response.value.value)
  {
    match response
    case Ok(Some(rows)) => if HasInheritedCategory(rows) then map[] else Group(rows)
    case _ => map[]
  }

  /** One entry filed under "constructor" empties every select box of the
      page, however many good entries come with it. */
  lemma InheritedCategoryEmptiesAll(rows: seq<Entry>, bad: Entry)
    requires bad in rows && bad.category == "constructor"
    ensures Load(Ok(Some(rows))) == map[]
  {
    var i :| 0 <= i < |rows| && rows[i] == bad;
    assert rows[i].category in InheritedNames;
  }

  /** No group is empty, and every row sits in the group of its own category,
      in input order. */
  lemma GroupShape(rows: seq<Entry>)
    ensures forall c :: c in Group(rows) ==> Group(rows)[c] != []
    ensures forall e :: e in rows ==> e.category in Group(rows) && e in Group(rows)[e.category]
    ensures forall c :: c in Group(rows) ==> Subsequence(Group(rows)[c], rows)
  {
    var g := Group(rows);
    forall c | c in g ensures g[c] != [] {
      var e :| e in rows && e.category == c;
      assert e in OfCategory(rows, c);
    }
  }

  // ---- Count preservation -------------------------------------------------

  ghost predicate NoDuplicates<T>(s: seq<T>) {
    forall i, j :: 0 <= i < j < |s| ==> s[i] != s[j]
  }

  /** The total size of the groups named by `keys`. */
  function SizeOver(g: map<string, seq<Entry>>, keys: seq<string>): nat {
    if keys == [] then 0
    else (if keys[0] in g then |g[keys[0]]| else 0) + SizeOver(g, keys[1..])
  }

  function FilteredSize(rows: seq<Entry>, keys: seq<string>): nat {
    if keys == [] then 0 else |OfCategory(rows, keys[0])| + FilteredSize(rows, keys[1..])
  }

  lemma {:induction false} FilteredSizeStep(rows: seq<Entry>, e: Entry, keys: seq<string>)
    requires NoDuplicates(keys)
    ensures FilteredSize(rows + [e], keys) == FilteredSize(rows, keys) + (if e.category in keys then 1 else 0)
  {
    if keys != [] {
      var rows' := rows + [e];
      assert Init(rows') == rows && Last(rows') == e;
      assert NoDuplicates(keys[1..]) by {
        forall i, j | 0 <= i < j < |keys[1..]| ensures keys[1..][i] != keys[1..][j] {
          assert keys[1..][i] == keys[i + 1] && keys[1..][j] == keys[j + 1];
        }
      }
      FilteredSizeStep(rows, e, keys[1..]);
      if keys[0] == e.category {
        assert e.category !in keys[1..] by {
          forall k | 0 <= k < |keys[1..]| ensures keys[1..][k] != e.category {
            assert keys[1..][k] == keys[k + 1];
          }
        }
      }
      assert e.category in keys <==> keys[0] == e.category || e.category in keys[1..];
    }
  }

  lemma {:induction false} FilteredSizeCoversAll(rows: seq<Entry>, keys: seq<string>)
    requires NoDuplicates(keys)
    requires forall e :: e in rows ==> e.category in keys
    ensures FilteredSize(rows, keys) == |rows|
    decreases |rows|
  {
    if rows == [] {
      FilteredSizeOfEmpty(keys);
    } else {
      assert rows == Init(rows) + [Last(rows)];
      assert forall e :: e in Init(rows) ==> e in rows;
      FilteredSizeCoversAll(Init(rows), keys);
      FilteredSizeStep(Init(rows), Last(rows), keys);
    }
  }

  lemma {:induction false} FilteredSizeOfEmpty(keys: seq<string>)
    ensures FilteredSize([], keys) == 0
  {
    if keys != [] {
      FilteredSizeOfEmpty(keys[1..]);
    }
  }

  lemma {:induction false} SizeOverIsFilteredSize(rows: seq<Entry>, keys: seq<string>)
    ensures SizeOver(Group(rows), keys) == FilteredSize(rows, keys)
  {
    if keys != [] {
      SizeOverIsFilteredSize(rows, keys[1..]);
    }
  }

  /** Grouping loses and duplicates nothing: summed over the categories (each
      listed once), the group sizes add up to the number of rows. */
  lemma CountPreserved(rows: seq<Entry>, keys: seq<string>)
    requires NoDuplicates(keys)
    requires forall k :: k in keys <==> k in Group(rows)
    ensures SizeOver(Group(rows), keys) == |rows|
  {
    SizeOverIsFilteredSize(rows, keys);
    FilteredSizeCoversAll(rows, keys);
  }

  // ---- What reaches the form ---------------------------------------------

  lemma {:induction false} SortedSubsequence(a: seq<Entry>, b: seq<Entry>)
    requires Subsequence(a, b) && SortedByOrder(b)
    ensures SortedByOrder(a)
    decreases |b|
  {
    if a != [] {
      assert SortedByOrder(Init(b));
      if Last(a) == Last(b) {
        SortedSubsequence(Init(a), Init(b));
        SubsequenceMembers(Init(a), Init(b));
        assert a == Init(a) + [Last(a)];
        forall i, j | 0 <= i < j < |a| ensures a[i].order <= a[j].order {
          if j < |a| - 1 {
            assert a[i] == Init(a)[i] && a[j] == Init(a)[j];
          } else {
            assert a[i] in Init(b);
          }
        }
      } else {
        SortedSubsequence(a, Init(b));
      }
    }
  }

  lemma {:induction false} SubsequenceMembers<T>(a: seq<T>, b: seq<T>)
    requires Subsequence(a, b)
    ensures forall x :: x in a ==> x in b
    decreases |b|
  {
    if a != [] {
      assert b == Init(b) + [Last(b)];
      if Last(a) == Last(b) {
        SubsequenceMembers(Init(a), Init(b));
        assert a == Init(a) + [Last(a)];
      } else {
        SubsequenceMembers(a, Init(b));
      }
    }
  }

  lemma {:induction false} OfCategoryCounts(rows: seq<Entry>, c: string)
    ensures forall e :: multiset(OfCategory(rows, c))[e] == if e.category == c then multiset(rows)[e] else 0
  {
    if rows != [] {
      assert rows == Init(rows) + [Last(rows)];
      OfCategoryCounts(Init(rows), c);
    }
  }

  /** The map a form page builds holds, under each category, exactly the
      active entries of that category, each as often as in the table, in
      ascending `order`; an inactive entry never appears. */
  lemma FormGroups(table: seq<Entry>)
    ensures var g := Group(ActiveByOrder(table));
            && (forall c :: c in g ==> SortedByOrder(g[c]))
            && (forall c, e :: c in g && e in g[c] ==> e.isActive && e.category == c && e in table)
            && (forall c, e: Entry :: c in g ==> multiset(g[c])[e] == if e.isActive && e.category == c then multiset(table)[e] else 0)
            && (forall e :: e in table && e.isActive ==> e.category in g)
  {
    var rows := ActiveByOrder(table);
    var g := Group(rows);
    forall c | c in g ensures SortedByOrder(g[c]) {
      SortedSubsequence(g[c], rows);
    }
    forall c | c in g ensures forall e: Entry :: multiset(g[c])[e] == if e.isActive && e.category == c then multiset(table)[e] else 0 {
      ActiveCategoryCounts(table, c);
    }
    forall e | e in table && e.isActive ensures e.category in g {
      assert e in rows;
    }
  }

  /** The sorted active rows of one category hold each entry as often as the
      table does when it is active and of that category, and never otherwise. */
  lemma ActiveCategoryCounts(table: seq<Entry>, c: string)
    ensures forall e :: multiset(OfCategory(ActiveByOrder(table), c))[e]
                          == if e.isActive && e.category == c then multiset(table)[e] else 0
  {
    OfCategoryCounts(ActiveByOrder(table), c);
  }

  /** The example of a two-entry plan list fetched out of order. */
  lemma PlanNamesComeOutOrdered(a: Entry, b: Entry)
    requires a.category == "PLAN_NAME" && b.category == "PLAN_NAME"
    requires a.isActive && b.isActive && a.order == 2 && b.order == 1
    ensures Group(ActiveByOrder([a, b])) == map["PLAN_NAME" := [b, a]]
  {
    ActiveOnlyOfTwo(a, b);
    SortOfTwo(a, b);
    GroupOfTwo(b, a);
  }

  lemma ActiveOnlyOfTwo(a: Entry, b: Entry)
    requires a.isActive && b.isActive
    ensures ActiveOnly([a, b]) == [a, b]
  {
    ActiveOnlyAppend([], a);
    ActiveOnlyAppend([a], b);
    assert [] + [a] == [a] && [a] + [b] == [a, b];
  }

  lemma ActiveOnlyAppend(rows: seq<Entry>, e: Entry)
    ensures ActiveOnly(rows + [e]) == ActiveOnly(rows) + (if e.isActive then [e] else [])
  {
    var rows' := rows + [e];
    assert Init(rows') == rows && Last(rows') == e;
  }

  lemma SortOfTwo(a: Entry, b: Entry)
    requires b.order < a.order
    ensures SortByOrder([a, b]) == [b, a]
  {
    assert Init([a, b]) == [a] && Last([a, b]) == b;
    assert Init([a]) == [] && Last([a]) == a;
    assert SortByOrder([a]) == [a];
    assert Insert(b, []) == [b];
  }

  lemma GroupOfTwo(x: Entry, y: Entry)
    requires x.category == y.category
    ensures Group([x, y]) == map[x.category := [x, y]]
  {
    var g := Group([x, y]);
    CategoriesOfTwo(x, y);
    OfCategoryOfTwo(x, y);
    SingleKey(g, x.category, [x, y]);
  }

  lemma CategoriesOfTwo(x: Entry, y: Entry)
    requires x.category == y.category
    ensures CategoriesOf([x, y]) == {x.category}
  {
  }

  lemma OfCategoryOfTwo(x: Entry, y: Entry)
    requires x.category == y.category
    ensures OfCategory([x, y], x.category) == [x, y]
  {
    OfCategoryAppend([], x, x.category);
    OfCategoryAppend([x], y, x.category);
    assert [] + [x] == [x] && [x] + [y] == [x, y];
  }

  lemma SingleKey<K, V>(g: map<K, V>, k: K, v: V)
    requires g.Keys == {k} && g[k] == v
    ensures g == map[k := v]
  {
  }
}
