# Fantasy Premier League player lookup

A Dafny model of the pure part of a small Prefect flow that fetches the
Fantasy Premier League season data and looks a player up by display name
(`basic_flow.py`).

- `JsonValues` — the parsed JSON a response body decodes to (`Json`), and a
  player record as a map from field name to value.
- `PlayerLookup` — `find_player`: walk the document's `"elements"` list in
  order and return the first record whose `"web_name"` is exactly the given
  name. The outcome is a `SearchResult`: `Found(record)`, `NotFound` (the
  loop falls through and the function returns `None`), `KeyError(key)` (a
  subscript asks for a key the object lacks) or `TypeError` (a subscript or
  the iteration meets a value of the wrong kind: a document that is not an
  object, an `"elements"` value that is null, a boolean, a number, a
  non-empty object or a non-empty string, or an element that is not an object). Name comparison is value
  equality: a `"web_name"` that is not a string never matches and does not
  raise. The model is pure, so the document is never changed, and a found
  record is the element of the list itself.
- `Endpoints` — the request address: the base URL with the relative path
  appended.

A missing key raises `KeyError` (basic_flow.py:30-31); the model returns
`KeyError(key)`.

## Model

| member | source | states |
|---|---|---|
| `PlayerLookup.Scan` | basic_flow.py:30-32 | On a list of elements: `NotFound` exactly when every element is a record whose `web_name` exists and differs from the name; `Found` exactly when some index holds a match with every earlier element passed over, and the returned record is that element; `KeyError("web_name")` exactly when the first element that is not passed over is a record lacking `web_name`; `TypeError` exactly when it is not a record |
| `PlayerLookup.ScanElements` | basic_flow.py:30 | Iterating the `"elements"` value: a list is scanned; an object or string gives `NotFound` only when empty and otherwise raises; any other value raises `TypeError` |
| `PlayerLookup.FindPlayer` | basic_flow.py:28-32 | `KeyError("elements")` exactly when the document is an object without `"elements"`, before any element is examined; `TypeError` when the document is not an object; any value present under `"elements"` is iterated as by `ScanElements`, so a list is scanned as by `Scan`; an empty list gives `NotFound`; a found record has `web_name` equal to the name and is a member of the document's list |
| `PlayerLookup.ScanConcat` | basic_flow.py:30-32 | The outcome on `front + back` is the outcome on `front` unless `front` is run through to `NotFound`, in which case it is the outcome on `back` |
| `PlayerLookup.LaterElementsIgnored` | basic_flow.py:30-32 | Whatever follows the first match, even malformed elements, the search returns that match |
| `PlayerLookup.WellFormedLookup` | basic_flow.py:30-32 | When every element is a record with `web_name`, the name is found exactly when some element matches it, and `NotFound` is returned exactly when none does |
| `PlayerLookup.FindPlayerLoop` | basic_flow.py:28-32 | The source's `for` loop with its early `return` over a list under `"elements"`, proved to give the same outcome as `FindPlayer` on every document; a non-list `"elements"` value is handed to `ScanElements` instead of being iterated by the loop |
| `Endpoints.FullUrl` | basic_flow.py:16 | The request address starts with `https://fantasy.premierleague.com/api/`, has length `|BaseUrl| + |url|`, and ends with the path unchanged |
| `Endpoints.FullUrlInjective` | basic_flow.py:16 | Two paths give the same address exactly when they are equal |

## Left out

- The HTTP GET, the status check and the JSON decoding in `pull_players_data` (basic_flow.py:17-25): network I/O through a library that is not part of this model. On a non-200 status `data` is never assigned and the `return` raises; that is on the I/O path and is not modelled.
- The Prefect `@flow` / `@task` decorators and the orchestration they provide (basic_flow.py:2, 7, 14, 27): an external framework.
- `show_data` and its console message (basic_flow.py:8-12), and the progress `print` in `find_player` (basic_flow.py:29): output only. `show_data` subscripts the lookup's result without checking it, so a name that is not found makes it fail instead of printing a message.
- The `__main__` entry point with its hard-coded player name (basic_flow.py:34-36): command-line wiring.
- JSON floating-point numbers: numbers are integers in the model. A number never equals a string name, so no lookup outcome depends on this.
- The order of a JSON object's fields: iterating a non-empty object under `"elements"` raises on its first key whichever key that is, so the order does not affect any outcome.
- Per-week fetching, per-week file writing and merging of weekly files: that code is not part of this model.
