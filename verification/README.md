# Garage API — a Dafny model

This project models the small auto-parts inventory service of the garage API
repository:

- the in-memory store (`Part` and `Garage` in `csharp-app/Program.cs`), which is
  an ordered list of parts plus an id counter, with add, list and find-by-id;
- the create-part schema of `app/schemas/part.py`: a name of 1 to 100
  characters, a part number matching `^[A-Z]{3}-\d{3}$`, and a quantity
  greater than 0 that defaults to 1;
- the request handlers of `app/main.py`: seeding at startup, `create_part`,
  `list_parts`, `get_part`, `health_check` and `read_root`. Each one is a pure
  function from a store to an `Exchange`, which holds the new store and the
  response.

Modules:

| module | file | models |
|---|---|---|
| `Wrappers` | `wrappers.dfy` | `Option` (the C# `null` / Python `None`) and `Result` |
| `Inventory` | `inventory.dfy` | `Part`, `Garage`, `AddPart`, `ListParts`, `FindPart` |
| `Schemas` | `schemas.dfy` | `PartBase` / `PartCreate` / `PartResponse` and the field checks |
| `Api` | `api.dfy` | the HTTP handlers, status codes 200 / 404 / 422, and request dispatch |

The store invariant `Inventory.Valid` says the counter is `n + 1` and the part
at position `i` has id `i + 1`. Every store operation and every handler keeps
it. Under it, lookup succeeds exactly for the ids `1..n`. Validation happens
only when a create body is accepted (`Api.PostPart`). The store accepts
anything: the seeded part numbers `"OC 90"`, `"AF 123"` and `"SP 456"` fail the
schema's pattern (`Api.SeedBypassesValidation`). Even so, every part that came
in through POST satisfies all three field checks (`Api.ServePreservesStore`).

The Python store class `app.models.Garage` that `main.py` imports is not part of
this model. The handlers call the store modelled from its C# version, which
the C# file describes as the analogue of the Python code.

Where the repository's own documents disagree with each other, this model
follows the code that runs. The default quantity is 1, as `app/schemas/part.py`
declares. The 0 default of the unused ORM table is not modelled. Part numbers
are not checked for uniqueness, because no live code path does so.

## Model

| member | source | states |
|---|---|---|
| Inventory.NewGarage | csharp-app/Program.cs:60-67 | a new store has no parts and satisfies the id invariant (counter 1), and no id can be found in it |
| Inventory.AddPart | csharp-app/Program.cs:70-84 | the new part's id is the counter before the call and its other fields are exactly the arguments; the list grows by one at the end with earlier parts unchanged; the counter goes up by one; the id invariant is preserved and the new id is `n + 1` |
| Inventory.Find | csharp-app/Program.cs:96-112 | the result is absent iff no stored part has the id; a present result has that id and is the first such part in list order |
| Inventory.FindPart | csharp-app/Program.cs:96-112 | the front-to-back loop returns the first part whose id matches, or none exactly when no part matches; it agrees with `Find` |
| Inventory.FindInValid | csharp-app/Program.cs:96-112 | on a valid store, lookup succeeds iff `1 <= k <= n`, and id `k` yields the k-th part added |
| Inventory.ValidIdsIncrease | csharp-app/Program.cs:73-80 | on a valid store ids strictly increase in list order, so they are unique |
| Inventory.ListParts | csharp-app/Program.cs:87-91 | the listing is the stored sequence itself, in insertion order; on a valid store it holds ids 1..n in order, one per id handed out; its behaviour across adds is stated by `Inventory.ListAfterAdds` |
| Inventory.TwoAddsThenList | csharp-app/Program.cs:60-91 | two adds on a new store get ids 1 and 2, and the listing holds both parts in the order added |
| Inventory.ListAfterAdds | csharp-app/Program.cs:87-91 | after any run of adds on a valid store, the listing keeps the old parts first, unchanged, then one part per add in call order with ids counting on from the old size, and the invariant holds |
| Schemas.FullMatchPointwise | app/schemas/part.py:12 | an anchored pattern matches a string iff the lengths are equal and each character is in its position's class |
| Schemas.PatternMatchesFormat | app/schemas/part.py:10-14 | `^[A-Z]{3}-\d{3}$` accepts a string iff it has 7 characters: three `A`-`Z`, a hyphen, then three digits |
| Schemas.NameErrors | app/schemas/part.py:7-9 | the name yields no error iff it is present and 1 to 100 characters long |
| Schemas.PartNumberErrors | app/schemas/part.py:10-14 | the part number yields no error iff it is present and matches the pattern |
| Schemas.QuantityErrors | app/schemas/part.py:15 | the quantity, or 1 when it is absent, yields no error iff it is greater than 0 |
| Schemas.Validate | app/schemas/part.py:4-21 | a body is accepted iff all three field checks hold, with an absent quantity read as 1; an accepted body keeps its fields; a refused one reports a field iff that field fails |
| Schemas.EmptyNameRejected | app/scripts/test_full_api.py:105 | the empty name is refused, and it is the only error reported |
| Schemas.ReversedPartNumberRejected | app/scripts/test_full_api.py:106-110 | `"123-ABC"` fails the part-number check and `"ABC-123"` passes it |
| Schemas.ZeroQuantityRejected | app/scripts/test_full_api.py:111-115 | a quantity of 0 is refused |
| Schemas.DefaultQuantityAccepted | app/scripts/test_full_api.py:116-120 | the default quantity 1 passes its own check, so a body with only a valid name and part number is accepted with quantity 1 |
| Schemas.WellFormedCreatesAccepted | app/scripts/test_full_api.py:165-186 | the two well-formed create bodies of the test script are accepted unchanged |
| Api.Startup | app/main.py:23-29 | startup seeding gives a valid store of three parts with ids 1, 2, 3 and the seeded fields, in order |
| Api.SeedBypassesValidation | app/main.py:27-29 | no seeded part number has the `ABC-123` form, so the schema's pattern is not a store invariant |
| Api.CreatePart | app/main.py:44-60 | the store grows by one part at the end; the answer is the last stored part, which carries the counter value as id and the body's fields; on a valid store its id is the old count + 1; a validated body yields an answer that satisfies the response schema |
| Api.PostPart | app/main.py:44-60 | the answer is 422 iff validation fails, and then it carries the validation errors and the store is unchanged; otherwise one part is appended and the answer is that new last part, with the counter value as id, the body's name and part number, and its quantity or 1 when absent, satisfying the response schema; the store invariant is kept |
| Api.ReadRoot | app/main.py:70-80 | the root greeting answers 200 and leaves the store unchanged |
| Api.HealthCheck | app/main.py:85-93 | the health report's part count equals the number of stored parts and the store is unchanged |
| Api.Records | app/main.py:103-112 | one record per stored part, in order, with the same four fields |
| Api.ListParts | app/main.py:98-114 | the total equals the number of stored parts and the listing has each part's four fields in store order; the store is unchanged |
| Api.GetPart | app/main.py:119-127 | a part is found iff some stored part has the id, and it is a stored part with that id; otherwise the answer is 404 for that id; the store is unchanged |
| Api.CreateThenGet | app/main.py:44-127 | a created part fetched by its own id comes back with identical fields |
| Api.GetPartInValid | app/main.py:119-127 | on a valid store, fetching answers 200 iff the id is in `1..n`, with the part at position `id - 1` |
| Api.SeededLookups | app/scripts/test_full_api.py:160-161 | on the seeded store id 1 is the first seeded part, id 999 gives 404, and id 2 (the lookup of the console program) is the second seeded part |
| Api.TwoPostsThenList | app/main.py:44-114 | two accepted creates on a valid store get ids n + 1 and n + 2, and the listing then shows the old records followed by the two created records in order |
| Api.SeededCreatesThenList | app/scripts/test_full_api.py:165-186 | the two creates of the test script on the seeded store get ids 4 and 5 with their fields, and the listing then totals 5 |
| Api.HyphenatedSeedNumbersRefused | app/schemas/part.py:12 | create bodies with part numbers `"OC-090"` or `"AF-123"` are refused with 422 on any store |
| Api.Handle | app/main.py:44-127 | every route except the create route leaves the store unchanged |
| Api.HandleKeepsStore | app/main.py:44-127 | one request keeps the store valid and every part it had, adds at most one part, and an added part passed all three field checks |
| Api.ServePreservesStore | app/main.py:44-127 | over any sequence of requests, the store keeps its invariant and never loses or changes a part, and every part added passed all three field checks |

## Left out

- Integer width: ids, the counter and quantities are unbounded integers. The C# `nextId++` would wrap around after 2^31 - 1 adds; the Python store does not. That wrap is not modelled.
- Framework plumbing: routing, JSON parsing and serialisation, and pydantic's coercion of JSON values (for example a numeric string given as the quantity). The error body of a 422 is reduced to the list of failing fields and the reason for each.
- Regular-expression details: `[A-Z]` and `\d` are taken as ASCII only, and `$` as the end of the string. Python's Unicode `\d` is not modelled. Lengths count code points, which is how a Dafny `string` is measured.
- The 404 detail message text is left out; `NotFound` carries only the requested id. The `if not part` test is modelled as "no part found", since a stored part object is always truthy.
- Concurrency: requests are served one at a time. The race between concurrent `add_part` calls and `parts[-1]` is not modelled.
- Aliasing: the C# `ListParts` returns the live list object. The model returns the sequence as a value, and no operation mutates a stored part's fields.
- Null strings passed to the C# `AddPart` are not modelled.
- `Program.Main` console output, `Console.ReadKey` and `Part.ToString` are left out as I/O and formatting.
- `app/db/models.py` is an ORM table that no live code path uses; its `unique` part number, `default=0` quantity and `storage_location` column are left out.
- The scripts under `app/scripts` are HTTP clients, installers and debugging helpers. They are used only as a source of concrete cases.
