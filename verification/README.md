# Item registry

A Dafny model of the item service in `main.py`: a process-wide Python list
`items` of `Item` records (optional `text`, `is_done` defaulting to false)
and the four handlers that use it — `create_item` appends a body and returns
the whole list, `list_items` returns `items[0:limit]` (default limit 10),
`get_item` and `update_item` read or overwrite the item at a position behind
the guard `item_id < len(items)`, raising a 404 with detail
`"Item {item_id} not found"` when the guard fails.

The registry is an immutable `seq<Item>`; every handler is a pure function
from the registry before the request (plus its inputs) to the registry after
it and the handler's answer, a `Result` whose errors are `NotFound(id, detail)`
and `IndexError(message)`. The guard has no lower bound, so an id below 0
reaches the list and CPython's subscript rules (64-bit build) decide:

- an id in `-len(items) .. -1` names the slot `len(items) + id`;
- an id from `-2**63` up to `-len(items) - 1` raises IndexError `list index out of range` when reading and `list assignment index out of range` when writing;
- an id below `-2**63` does not fit a 64-bit index and raises IndexError `cannot fit 'int' into an index-sized integer`, when reading and when writing.

Files:

- `wrappers.dfy` — `Option` and `Result`.
- `decimal.dfy` — Python's `str(int)` (`Format`) for ints of at most 4300
  digits, which prints the id into the 404 detail, with a parser proved to be
  its exact inverse.
- `py_list.dfy` — Python list subscript, subscript assignment and slicing
  (negative indices, IndexError, slice-bound clamping).
- `item_registry.dfy` — `Item`, the registry, the four handlers, a `Step`
  function serving any request (including the root greeting) and `Run`
  serving a sequence of them, with the properties below.

Two consequences of the code that are easy to miss:

- A negative limit does not list nothing: `items[0:limit]` drops the last
  `|limit|` items, and is empty only when `|limit| >= len(items)` (`ListItems`).
- Only ids `>= len(items)` get the 404: negative ids index from the end or
  raise IndexError (`GetItem`, `UpdateItem`).

## Model

| member | source | states |
|---|---|---|
| `ItemRegistry.CreateItem` | main.py:16-19 | the registry grows by exactly one item, appended at the end, every earlier slot unchanged, and the answer is the whole updated registry, not the created item |
| `ItemRegistry.CreateThenGet` | main.py:17-29 | the created item can be read back at id `len(items)` (the old length) and at id -1 |
| `ItemRegistry.ListItems` | main.py:21-23 | the registry is not changed; a limit `>= 0` gives the first `min(limit, len)` items in order, a negative limit gives the first `max(0, len + limit)`, and the answer is empty exactly when the limit is 0, the registry is empty, or the limit is `<= -len` |
| `ItemRegistry.ListDefault` | main.py:22-23 | with the default limit of 10 the answer is the first `min(10, len)` items |
| `ItemRegistry.GetItem` | main.py:25-31 | the registry is not changed; it succeeds exactly for ids in `[-len, len)` that fit a 64-bit index; ids in `[0, len)` give that item, ids in `[-len, 0)` give the item at `len + id`, ids `>= len` fail with NotFound carrying the id and detail `Item {id} not found`, ids from `-2**63` to `-len - 1` fail with IndexError `list index out of range`, and ids below `-2**63` with IndexError `cannot fit 'int' into an index-sized integer` |
| `ItemRegistry.GetIgnoresBody` | main.py:26-29 | the request body given to the read handler never affects its outcome |
| `ItemRegistry.UpdateItem` | main.py:33-39 | succeeds exactly for ids in `[-len, len)` that fit a 64-bit index, and then answers the body itself, writes it whole into the slot the id names (the id, or `len + id` for a negative id) and leaves the length and every other slot unchanged; ids `>= len` fail with NotFound and detail `Item {id} not found`, ids from `-2**63` to `-len - 1` with IndexError `list assignment index out of range`, ids below `-2**63` with IndexError `cannot fit 'int' into an index-sized integer`, and a failure leaves the registry unchanged |
| `ItemRegistry.GetAfterUpdate` | main.py:26-37 | after a successful update, reading the same id answers the written item |
| `ItemRegistry.UpdateIdempotent` | main.py:34-37 | writing the same item to the same id twice leaves the registry and the answer as writing it once |
| `ItemRegistry.NotFoundDetail` | main.py:31 | the 404 detail (built identically at line 39) starts with `Item ` and ends with ` not found`, and the id can be read back from it |
| `ItemRegistry.DetailOfItemId` | main.py:31 | any text that reads as a 404 detail for an id is exactly that id's detail |
| `ItemRegistry.NotFoundDetailInjective` | main.py:39 | different ids give different 404 details |
| `ItemRegistry.Step` | main.py:12-39 | serving one request grows the registry by one for a create and by nothing otherwise, and only an update can change an existing slot, namely the one its id names |
| `ItemRegistry.RunLength` | main.py:10-39 | over any sequence of requests the registry grows by exactly the number of creates (nothing is ever removed) and every request gets one answer |
| `ItemRegistry.RunWithoutUpdatesExtends` | main.py:16-31 | a sequence of requests with no update only appends: every item already present stays at its position |
| `ItemRegistry.Scenario` | main.py:16-39 | for any items a, b, c, from an empty registry: create a, create b (answers `[a]` then `[a, b]`), get 0 answers a, get 5 fails with `Item 5 not found`, update 1 with c answers c and leaves the registry `[a, c]` |
| `Decimal.NatDigits` | main.py:31 | the digits printed for a natural number are non-empty decimal digits, a single digit exactly below 10, and start with '0' only for zero itself |
| `Decimal.Format` | main.py:31 | for integers of at most 4300 digits (see below), `str` of an integer, as printed into the 404 detail here and at line 39, starts with `-` exactly when the integer is negative, and parsing it gives the integer back |
| `Decimal.FormatParse` | main.py:31 | the parser accepts only printed forms: whatever it accepts is the printing of the value it returns |
| `Decimal.FormatInjective` | main.py:31 | different integers print differently |
| `PyList.Resolve` | main.py:28 | a subscript names a slot exactly when it lies in `[-len, len)`; the slot is the subscript itself or `len + subscript` |
| `PyList.Get` | main.py:28 | reading succeeds exactly for subscripts in `[-len, len)` that fit a 64-bit index and gives the element at the subscript or at `len + subscript`; a subscript outside the 64-bit range fails with `cannot fit 'int' into an index-sized integer`, any other failure with `list index out of range` |
| `PyList.Set` | main.py:36 | assignment succeeds exactly for subscripts in `[-len, len)` that fit a 64-bit index, keeps the length, writes the named slot and keeps every other slot; a subscript outside the 64-bit range fails with `cannot fit 'int' into an index-sized integer`, any other failure with `list assignment index out of range` |
| `PyList.Slice` | main.py:23 | with each bound clamped into `[0, len]` (a negative bound counting from the end), a slice holds `max(0, stop' - start')` elements, the k-th being the element at `start' + k`, for the clamped bounds `start'` and `stop'` |
| `PyList.SliceFromZero` | main.py:23 | a slice starting at 0 is the prefix up to the clamped stop bound |

## Left out

- HTTP routing, decorators and status codes (main.py:1, 4, 12, 16, 21, 25, 33): errors are `Result` variants; the 404 status of NotFound and the 500 that an uncaught IndexError becomes are not modelled.
- `response_model` filtering and JSON serialisation of answers: the answer is the Dafny value the handler returns.
- Request validation and coercion of `Item` bodies and of the `item_id` and `limit` parameters: every input is taken to be an already well-typed `Item` or integer.
- The interactive documentation pages named in the closing comments (main.py:41-42): generated by the web framework.
- Concurrent requests on the shared list: each request is one atomic step (`Step`), and `Run` serves requests one after another.
- The validated item variant (name length, positive price, supplier, `updated_by`) is not part of this model: there is no code for it among the modelled files.
- `Decimal.Parse` accepts only what `str` prints; the wider syntax of Python's `int()` (signs, spaces, underscores, leading zeros) is not needed for reading a 404 detail back and is not modelled.
- Index width: the model follows a 64-bit CPython build, where `Py_ssize_t` spans `-2**63 .. 2**63 - 1`.
- ItemRegistry.CreateItem: does not model the error CPython raises when appending to a list that already holds `2**63 - 1` items; such a list cannot exist in memory, so `CreateThenGet` assumes a shorter registry.
- PyList.Slice: does not first clamp slice bounds to the 64-bit range as CPython does; for every list shorter than `2**63` items the result is the same.
- Decimal.Format: prints integers of any size, but CPython refuses to convert an int of more than 4300 digits to a string (ValueError), so for an id that large the 404 detail at main.py:31 and main.py:39 raises instead of answering; request validation already rejects such ids before `get_item` or `update_item` runs, so the model answers NotFound for them.
