/**
  The item registry of main.py: a process-wide list of items that four
  handlers read and change. Each handler is a pure transition from the
  registry before the request to the registry after it, paired with what the
  handler returns or raises. Item ids are positions in the list, resolved with
  Python's subscript rules behind a guard that only checks the upper bound.
 */
module ItemRegistry {
  import opened Wrappers
  import Decimal
  import PyList

  /** An item as the request body declares it; both fields have defaults. */
  datatype Item = Item(text: Option<string> := None, isDone: bool := false)

  /** The item a body with no fields produces: no text, not done. */
  const DefaultItem := Item()

  /** The list of items, in insertion order; an item's id is its position. */
  type Registry = seq<Item>

  /** The registry at process start. */
  const Initial: Registry := []

  /** `limit` when the query does not give one. */
  const DefaultLimit := 10

  /** The greeting the root handler returns. */
  const Greeting: map<string, string> := map["Hello" := "World"]

  /**
    What a handler raises: the 404 it raises itself when the guard fails, or
    the IndexError Python raises when an id that passed the guard is not a
    usable list subscript.
   */
  datatype ApiError = NotFound(itemId: int, detail: string) | IndexError(message: string)

  /**
    The 404 detail for an id, as the f-string prints it: the id in decimal
    between "Item " and " not found", so that the id can be read back.
   */
  function NotFoundDetail(itemId: int): (d: string)
    ensures 16 <= |d| && d[..5] == "Item " && d[|d| - 10..] == " not found"
    ensures DetailItemId(d) == Some(itemId)
  {
    var f := Decimal.Format(itemId);
    var d := "Item " + f + " not found";
    assert d[..5] == "Item ";
    assert d[|d| - 10..] == " not found";
    assert d[5..|d| - 10] == f;
    d
  }

  /** Reads the id back out of a 404 detail; none when the text is not one. */
  function DetailItemId(detail: string): Option<int> {
    if |detail| >= 15 && detail[..5] == "Item " && detail[|detail| - 10..] == " not found" then
      Decimal.Parse(detail[5..|detail| - 10])
    else
      None
  }

  function NotFoundError(itemId: int): ApiError {
    NotFound(itemId, NotFoundDetail(itemId))
  }

  /** Every text that reads as a 404 detail is the detail of the id it reads as. */
  lemma DetailOfItemId(detail: string, itemId: int)
    requires DetailItemId(detail) == Some(itemId)
    ensures NotFoundDetail(itemId) == detail
  {
    var f := detail[5..|detail| - 10];
    Decimal.FormatParse(f, itemId);
    assert detail == detail[..5] + f + detail[|detail| - 10..];
  }

  /** Different ids give different 404 details. */
  lemma NotFoundDetailInjective(a: int, b: int)
    requires NotFoundDetail(a) == NotFoundDetail(b)
    ensures a == b
  {
  }

  /** POST /items: append the item, return the whole registry. */
  function CreateItem(items: Registry, item: Item): (r: (Registry, Registry))
    ensures |r.0| == |items| + 1
    ensures r.0[..|items|] == items
    ensures r.0[|items|] == item
    ensures r.1 == r.0
  {
    var after := items + [item];
    (after, after)
  }

  /** GET /items?limit=N: the slice `items[0:limit]`; the registry is not changed. */
  function ListItems(items: Registry, limit: int := DefaultLimit): (r: (Registry, Registry))
    ensures r.0 == items
    ensures 0 <= limit ==> r.1 == items[..PyList.Min(limit, |items|)]
    ensures limit < 0 ==> r.1 == items[..PyList.Max(0, |items| + limit)]
    ensures r.1 == [] <==> limit == 0 || |items| == 0 || limit <= -(|items| as int)
  {
    PyList.SliceFromZero(items, limit);
    (items, PyList.Slice(items, 0, limit))
  }

  /**
    GET /items/{item_id}: the item at that position. Ids at or past the end
    are 404; negative ids pass the guard and index from the end, those before
    the start raise IndexError, and so do ids too wide for a 64-bit subscript.
    The body is accepted and ignored.
   */
  function GetItem(items: Registry, itemId: int, body: Item): (r: (Registry, Result<Item, ApiError>))
    ensures r.0 == items
    ensures r.1.Success? <==> PyList.FitsIndex(itemId) && -(|items| as int) <= itemId < |items|
    ensures PyList.FitsIndex(itemId) && 0 <= itemId < |items| ==> r.1 == Success(items[itemId])
    ensures PyList.FitsIndex(itemId) && -(|items| as int) <= itemId < 0 ==> r.1 == Success(items[|items| + itemId])
    ensures |items| <= itemId ==> r.1 == Failure(NotFound(itemId, NotFoundDetail(itemId)))
    ensures PyList.FitsIndex(itemId) && itemId < -(|items| as int) ==> r.1 == Failure(IndexError(PyList.IndexOutOfRange))
    ensures !PyList.FitsIndex(itemId) && itemId < |items| ==> r.1 == Failure(IndexError(PyList.IndexTooWide))
  {
    if itemId < |items| then
      match PyList.Get(items, itemId)
      case Success(v) => (items, Success(v))
      case Failure(m) => (items, Failure(IndexError(m)))
    else
      (items, Failure(NotFoundError(itemId)))
  }

  /**
    PUT /items/{item_id}: replace the item at that position by the body and
    return the body; the same guard and the same failures as GetItem, and a
    failure leaves the registry as it was.
   */
  function UpdateItem(items: Registry, itemId: int, item: Item): (r: (Registry, Result<Item, ApiError>))
    ensures r.1.Success? <==> PyList.FitsIndex(itemId) && -(|items| as int) <= itemId < |items|
    ensures r.1.Success? ==> r.1.value == item
    ensures |r.0| == |items|
    ensures PyList.FitsIndex(itemId) && 0 <= itemId < |items| ==> r.0[itemId] == item
    ensures PyList.FitsIndex(itemId) && -(|items| as int) <= itemId < 0 ==> r.0[|items| + itemId] == item
    ensures forall k :: 0 <= k < |items| && k != itemId && k != |items| + itemId ==> r.0[k] == items[k]
    ensures r.1.Failure? ==> r.0 == items
    ensures |items| <= itemId ==> r.1 == Failure(NotFound(itemId, NotFoundDetail(itemId)))
    ensures PyList.FitsIndex(itemId) && itemId < -(|items| as int) ==> r.1 == Failure(IndexError(PyList.AssignmentOutOfRange))
    ensures !PyList.FitsIndex(itemId) && itemId < |items| ==> r.1 == Failure(IndexError(PyList.IndexTooWide))
  {
    if itemId < |items| then
      match PyList.Set(items, itemId, item)
      case Success(after) => (after, Success(item))
      case Failure(m) => (items, Failure(IndexError(m)))
    else
      (items, Failure(NotFoundError(itemId)))
  }

  /**
    The item just created is at the last position: its id is the old length,
    and -1 names it too.
   */
  lemma CreateThenGet(items: Registry, item: Item, body: Item)
    requires |items| < PyList.SsizeMax
    ensures var after := CreateItem(items, item).0;
      GetItem(after, |items|, body).1 == Success(item) && GetItem(after, -1, body).1 == Success(item)
  {
  }

  /** After a successful update, reading the same id gives the new item. */
  lemma GetAfterUpdate(items: Registry, itemId: int, item: Item, body: Item)
    requires UpdateItem(items, itemId, item).1.Success?
    ensures GetItem(UpdateItem(items, itemId, item).0, itemId, body).1 == Success(item)
  {
  }

  /** The body passed to GetItem never changes its outcome. */
  lemma GetIgnoresBody(items: Registry, itemId: int, a: Item, b: Item)
    ensures GetItem(items, itemId, a) == GetItem(items, itemId, b)
  {
  }

  /** Writing the same item twice is the same as writing it once. */
  lemma UpdateIdempotent(items: Registry, itemId: int, item: Item)
    ensures var once := UpdateItem(items, itemId, item);
      UpdateItem(once.0, itemId, item) == (once.0, once.1)
  {
    var once := UpdateItem(items, itemId, item);
    var twice := UpdateItem(once.0, itemId, item);
    assert twice.0 == once.0;
  }

  /** One request to the service, with the inputs its handler reads. */
  datatype Request =
    | Root
    | Create(item: Item)
    | List(limit: int := DefaultLimit)
    | Get(itemId: int, body: Item)
    | Update(itemId: int, item: Item)

  /** What a handler hands back: a payload, or the error it raised. */
  datatype Response =
    | Hello(payload: map<string, string>)
    | ItemList(items: seq<Item>)
    | OneItem(item: Item)
    | Error(error: ApiError)

  function ItemResponse(r: Result<Item, ApiError>): Response {
    match r
    case Success(v) => OneItem(v)
    case Failure(e) => Error(e)
  }

  /** One request as one atomic step on the registry. */
  function Step(items: Registry, req: Request): (r: (Registry, Response))
    ensures |r.0| == |items| + (if req.Create? then 1 else 0)
    ensures forall k :: 0 <= k < |items| && r.0[k] != items[k] ==>
      req.Update? && (k == req.itemId || k == |items| + req.itemId)
  {
    match req
    case Root => (items, Hello(Greeting))
    case Create(item) =>
      var (after, all) := CreateItem(items, item);
      (after, ItemList(all))
    case List(limit) =>
      var (after, some) := ListItems(items, limit);
      (after, ItemList(some))
    case Get(itemId, body) =>
      var (after, res) := GetItem(items, itemId, body);
      (after, ItemResponse(res))
    case Update(itemId, item) =>
      var (after, res) := UpdateItem(items, itemId, item);
      (after, ItemResponse(res))
  }

  /** A sequence of requests served one after another. */
  function Run(items: Registry, reqs: seq<Request>): (Registry, seq<Response>)
    decreases |reqs|
  {
    if |reqs| == 0 then (items, [])
    else
      var (next, resp) := Step(items, reqs[0]);
      var (final, resps) := Run(next, reqs[1..]);
      (final, [resp] + resps)
  }

  function CountCreates(reqs: seq<Request>): nat {
    if |reqs| == 0 then 0 else (if reqs[0].Create? then 1 else 0) + CountCreates(reqs[1..])
  }

  /** Nothing is ever removed: the registry grows by exactly one per create. */
  lemma {:induction false} RunLength(items: Registry, reqs: seq<Request>)
    ensures |Run(items, reqs).0| == |items| + CountCreates(reqs)
    ensures |Run(items, reqs).1| == |reqs|
    decreases |reqs|
  {
    if |reqs| > 0 {
      var next := Step(items, reqs[0]).0;
      RunLength(next, reqs[1..]);
    }
  }

  /** Without updates, the registry is only ever extended: what was there stays in place. */
  lemma {:induction false} RunWithoutUpdatesExtends(items: Registry, reqs: seq<Request>)
    requires forall k :: 0 <= k < |reqs| ==> !reqs[k].Update?
    ensures |items| <= |Run(items, reqs).0|
    ensures Run(items, reqs).0[..|items|] == items
    decreases |reqs|
  {
    if |reqs| > 0 {
      var next := Step(items, reqs[0]).0;
      assert !reqs[0].Update?;
      RunWithoutUpdatesExtends(next, reqs[1..]);
      var final := Run(items, reqs).0;
      assert final[..|next|][..|items|] == final[..|items|];
    }
  }

  /** Serving a request and then the rest is serving the whole sequence. */
  lemma RunStep(items: Registry, req: Request, rest: seq<Request>, next: Registry, resp: Response,
                final: Registry, resps: seq<Response>)
    requires Step(items, req) == (next, resp)
    requires Run(next, rest) == (final, resps)
    ensures Run(items, [req] + rest) == (final, [resp] + resps)
  {
  }

  /** GET /items with no query returns at most the first ten items. */
  lemma ListDefault(items: Registry)
    ensures ListItems(items).1 == items[..PyList.Min(10, |items|)]
  {
  }

  /** The 404 answer of the walk-through's read past the end. */
  const ReadFiveNotFound := Error(NotFound(5, "Item 5 not found"))

  /** The walk-through's two creates answer the list so far. */
  lemma ScenarioCreates(a: Item, b: Item)
    ensures Step([], Create(a)) == ([a], ItemList([a]))
    ensures Step([a], Create(b)) == ([a, b], ItemList([a, b]))
  {
    assert [] + [a] == [a];
    assert [a] + [b] == [a, b];
  }

  /** The walk-through's reads: position 0 answers the first item, position 5 is a 404. */
  lemma ScenarioReads(a: Item, b: Item)
    ensures Step([a, b], Get(0, DefaultItem)) == ([a, b], OneItem(a))
    ensures Step([a, b], Get(5, DefaultItem)) == ([a, b], ReadFiveNotFound)
  {
    assert NotFoundDetail(5) == "Item 5 not found" by {
      assert Decimal.Format(5) == "5";
    }
  }

  /** The walk-through's update replaces the second item. */
  lemma ScenarioUpdate(a: Item, b: Item, c: Item)
    ensures Step([a, b], Update(1, c)) == ([a, c], OneItem(c))
  {
    assert [a, b][1 := c] == [a, c];
  }

  /** The last three requests of the walk-through, served on `[a, b]`. */
  lemma ScenarioTail(a: Item, b: Item, c: Item)
    ensures Run([a, b], [Get(0, DefaultItem), Get(5, DefaultItem), Update(1, c)])
      == ([a, c], [OneItem(a), ReadFiveNotFound, OneItem(c)])
  {
    ScenarioReads(a, b);
    ScenarioUpdate(a, b, c);
    var q4 := [Update(1, c)];
    var q3 := [Get(5, DefaultItem)] + q4;
    var r4 := [OneItem(c)];
    var r3 := [ReadFiveNotFound] + r4;
    assert q4 == [Update(1, c)] + [] && r4 == [OneItem(c)] + [];
    RunStep([a, b], Update(1, c), [], [a, c], OneItem(c), [a, c], []);
    RunStep([a, b], Get(5, DefaultItem), q4, [a, b], ReadFiveNotFound, [a, c], r4);
    RunStep([a, b], Get(0, DefaultItem), q3, [a, b], OneItem(a), [a, c], r3);
    assert [Get(0, DefaultItem)] + q3 == [Get(0, DefaultItem), Get(5, DefaultItem), Update(1, c)];
    assert [OneItem(a)] + r3 == [OneItem(a), ReadFiveNotFound, OneItem(c)];
  }

  /**
    The walk-through of the service from an empty registry: create a, create
    b, read 0, read 5, update 1 with c.
   */
  lemma Scenario(a: Item, b: Item, c: Item)
    ensures Run(Initial, [Create(a), Create(b), Get(0, DefaultItem), Get(5, DefaultItem), Update(1, c)])
      == ([a, c], [ItemList([a]), ItemList([a, b]), OneItem(a), ReadFiveNotFound, OneItem(c)])
  {
    ScenarioCreates(a, b);
    ScenarioTail(a, b, c);
    var q2 := [Get(0, DefaultItem), Get(5, DefaultItem), Update(1, c)];
    var r2 := [OneItem(a), ReadFiveNotFound, OneItem(c)];
    RunStep([a], Create(b), q2, [a, b], ItemList([a, b]), [a, c], r2);
    RunStep([], Create(a), [Create(b)] + q2, [a], ItemList([a]), [a, c], [ItemList([a, b])] + r2);
    assert [Create(a)] + ([Create(b)] + q2) == [Create(a), Create(b), Get(0, DefaultItem), Get(5, DefaultItem), Update(1, c)];
    assert [ItemList([a])] + ([ItemList([a, b])] + r2) == [ItemList([a]), ItemList([a, b]), OneItem(a), ReadFiveNotFound, OneItem(c)];
  }
}
