/** The admin budget list (src/app/admin/orcamentos/page.tsx): the fetched
    orders are filtered by a case-insensitive search on the client's and the
    event's name, then sorted newest first or dearest first. Dates are integer
    timestamps and prices integers. */
module Budgets {
  import opened Common

  datatype Budget = Budget(id: string, nome: string, evento: string, totalPrice: Option<int>, createdAt: int)

  const FetchFailed: string := "Erro ao buscar orçamentos. Verifique o servidor."
  const InvalidData: string := "Dados inválidos recebidos do servidor."
  const UnknownError: string := "Erro desconhecido."

  // ---------------------------------------------------------------------------
  // Loading

  /** What the request produced: a failed status, a parsed body that is an
      array of budgets or something else, or an exception thrown by the fetch
      or the body parse (an `Error` with its message, or any other value). */
  datatype Response = NotOk | Body(data: Option<seq<Budget>>) | Thrown(message: Option<string>)

  /** The page after the mount effect: `loading` is false, and either the list
      or an error is set. */
  datatype Loaded = Loaded(orcamentos: seq<Budget>, error: Option<string>)

  function Load(response: Response): (r: Loaded)
    ensures r.error.None? <==> response.Body? && response.data.Some?
    ensures r.error.None? ==> r.orcamentos == response.data.value
    ensures r.error.Some? ==> r.orcamentos == []
    ensures response.NotOk? ==> r.error == Some(FetchFailed)
    ensures response.Body? && response.data.None? ==> r.error == Some(InvalidData)
    ensures response.Thrown? ==> r.error == Some(if response.message.Some? then response.message.value else UnknownError)
  {
    match response
    case NotOk => Loaded([], Some(FetchFailed))
    case Body(None) => Loaded([], Some(InvalidData))
    case Body(Some(data)) => Loaded(data, None)
    case Thrown(message) => Loaded([], Some(if message.Some? then message.value else UnknownError))
  }

  // ---------------------------------------------------------------------------
  // Search

  /** Lower-cased name or event includes the lower-cased query. */
  predicate Matches(b: Budget, query: string)
  {
    Contains(Lower(b.nome), Lower(query)) || Contains(Lower(b.evento), Lower(query))
  }

  /** The search ignores case on both sides: a query matches as its
      lower-cased form does. */
  lemma SearchIgnoresCase(b: Budget, query: string)
    ensures Matches(b, query) <==> Matches(b, Lower(query))
  {
    LowerIdempotent(query);
  }

  function FilterBudgets(orcamentos: seq<Budget>, query: string): (r: seq<Budget>)
    ensures forall i :: 0 <= i < |r| ==> r[i] in orcamentos && Matches(r[i], query)
    ensures forall i :: 0 <= i < |orcamentos| && Matches(orcamentos[i], query) ==> orcamentos[i] in r
    ensures IsSubsequence(r, orcamentos)
  {
    FilterIsSubsequence(orcamentos, (b: Budget) => Matches(b, query));
    Filter(orcamentos, (b: Budget) => Matches(b, query))
  }

  /** An empty search keeps every budget in order. */
  lemma EmptyQueryKeepsAll(orcamentos: seq<Budget>)
    ensures FilterBudgets(orcamentos, "") == orcamentos
  {
    forall i | 0 <= i < |orcamentos| ensures Matches(orcamentos[i], "") {
      assert OccursAt(Lower(orcamentos[i].nome), Lower(""), 0);
    }
    FilterKeepsAll(orcamentos, (b: Budget) => Matches(b, ""));
  }

  // ---------------------------------------------------------------------------
  // Sort

  /** `new Date(createdAt).getTime()`. */
  function CreatedKey(b: Budget): int { b.createdAt }

  /** `totalPrice || 0`. */
  function PriceKey(b: Budget): int
  {
    if b.totalPrice.Some? then b.totalPrice.value else 0
  }

  predicate NonIncreasing(s: seq<Budget>, key: Budget -> int)
  {
    forall i, j :: 0 <= i < j < |s| ==> key(s[i]) >= key(s[j])
  }

  /** Places `b` before the first element whose key is at most its own, so an
      earlier element stays ahead of equal ones, as `Array.prototype.sort`
      (stable) keeps them. */
  function Insert(b: Budget, sorted: seq<Budget>, key: Budget -> int): (r: seq<Budget>)
    ensures |r| == |sorted| + 1
    ensures r[0] == b || (sorted != [] && r[0] == sorted[0])
    decreases |sorted|
  {
    if sorted == [] || key(sorted[0]) <= key(b) then [b] + sorted
    else [sorted[0]] + Insert(b, sorted[1..], key)
  }

  /** Inserting into an ordered list keeps it ordered. */
  lemma {:induction false} InsertKeepsOrder(b: Budget, sorted: seq<Budget>, key: Budget -> int)
    requires NonIncreasing(sorted, key)
    ensures NonIncreasing(Insert(b, sorted, key), key)
    decreases |sorted|
  {
    if sorted != [] && key(sorted[0]) > key(b) {
      var head := sorted[0];
      var rest := Insert(b, sorted[1..], key);
      InsertKeepsOrder(b, sorted[1..], key);
      assert key(head) >= key(rest[0]);
      PrependKeepsOrder(head, rest, key);
    }
  }

  lemma PrependKeepsOrder(head: Budget, rest: seq<Budget>, key: Budget -> int)
    requires NonIncreasing(rest, key)
    requires rest != [] ==> key(head) >= key(rest[0])
    ensures NonIncreasing([head] + rest, key)
  {
    var r := [head] + rest;
    forall i, j | 0 <= i < j < |r| ensures key(r[i]) >= key(r[j]) {
      assert r[j] == rest[j - 1];
      if i > 0 { assert r[i] == rest[i - 1]; } else if j > 1 { assert key(rest[0]) >= key(rest[j - 1]); }
    }
  }

  /** Inserting adds exactly `b`. */
  lemma {:induction false} InsertAddsOne(b: Budget, sorted: seq<Budget>, key: Budget -> int)
    ensures multiset(Insert(b, sorted, key)) == multiset(sorted) + multiset{b}
    decreases |sorted|
  {
    if sorted != [] && key(sorted[0]) > key(b) {
      InsertAddsOne(b, sorted[1..], key);
      assert sorted == [sorted[0]] + sorted[1..];
    }
  }

  /** Insertion sort by a descending key. */
  function SortByKey(s: seq<Budget>, key: Budget -> int): (r: seq<Budget>)
    ensures NonIncreasing(r, key)
    ensures multiset(r) == multiset(s)
    decreases |s|
  {
    if s == [] then []
    else
      assert s == [s[0]] + s[1..];
      InsertKeepsOrder(s[0], SortByKey(s[1..], key), key);
      InsertAddsOne(s[0], SortByKey(s[1..], key), key);
      Insert(s[0], SortByKey(s[1..], key), key)
  }

  /** `[...filtered].sort(comparator)`: newest first, dearest first, or (the
      comparator returning 0) the filtered order unchanged. */
  function SortBudgets(filtered: seq<Budget>, sortBy: string): (r: seq<Budget>)
    ensures multiset(r) == multiset(filtered)
    ensures sortBy == "createdAt" ==> NonIncreasing(r, CreatedKey)
    ensures sortBy == "totalPrice" ==> NonIncreasing(r, PriceKey)
    ensures sortBy != "createdAt" && sortBy != "totalPrice" ==> r == filtered
  {
    if sortBy == "createdAt" then SortByKey(filtered, CreatedKey)
    else if sortBy == "totalPrice" then SortByKey(filtered, PriceKey)
    else filtered
  }

  /** "createdAt" lists every budget before the older ones. */
  lemma NewestFirst(filtered: seq<Budget>)
    ensures var r := SortBudgets(filtered, "createdAt");
      forall i, j :: 0 <= i < j < |r| ==> r[i].createdAt >= r[j].createdAt
  {
    var r := SortBudgets(filtered, "createdAt");
    forall i, j | 0 <= i < j < |r| ensures r[i].createdAt >= r[j].createdAt {
      assert CreatedKey(r[i]) >= CreatedKey(r[j]);
    }
  }

  /** "totalPrice" lists dearer budgets first; a budget without a price sorts
      as a price of 0, so it comes after every budget with a positive price. */
  lemma DearestFirst(filtered: seq<Budget>)
    ensures var r := SortBudgets(filtered, "totalPrice");
      forall i, j :: 0 <= i < j < |r| && r[j].totalPrice.Some? && r[j].totalPrice.value > 0 ==>
        r[i].totalPrice.Some? && r[i].totalPrice.value >= r[j].totalPrice.value
  {
    var r := SortBudgets(filtered, "totalPrice");
    forall i, j | 0 <= i < j < |r| && r[j].totalPrice.Some? && r[j].totalPrice.value > 0
      ensures r[i].totalPrice.Some? && r[i].totalPrice.value >= r[j].totalPrice.value
    {
      assert PriceKey(r[i]) >= PriceKey(r[j]);
    }
  }

  /** A list already in order is left as it is. */
  lemma {:induction false} SortSortedIsIdentity(s: seq<Budget>, key: Budget -> int)
    requires NonIncreasing(s, key)
    ensures SortByKey(s, key) == s
    decreases |s|
  {
    if s != [] {
      SortSortedIsIdentity(s[1..], key);
      assert s == [s[0]] + s[1..];
    }
  }

  /** The rows the page lists: the sort of the search result. */
  function Rows(orcamentos: seq<Budget>, query: string, sortBy: string): (r: seq<Budget>)
    ensures multiset(r) == multiset(FilterBudgets(orcamentos, query))
    ensures forall i :: 0 <= i < |r| ==> r[i] in orcamentos && Matches(r[i], query)
  {
    var filtered := FilterBudgets(orcamentos, query);
    var r := SortBudgets(filtered, sortBy);
    assert forall i :: 0 <= i < |r| ==> r[i] in multiset(filtered);
    r
  }
}
