# fiberopenapi: the petstore repository and the configuration builder

fiberopenapi lets a Fiber router register HTTP routes and, at the same time,
describe them in an OpenAPI 3.1 document. Most of its router code forwards
calls to the Fiber router or to the external `oaswrap/spec` generator. This
project models two self-contained parts of the repository:

- **The petstore's in-memory pet repository**
  (`examples/petstore/repository/repository.go`). It is a table from pet
  identifier to pet, with an auto-increment counter `nextID`. The model is the
  class `Repository.PetRepository`. Its field `data: map<int, Pet>` and its
  field `nextID: int` are updated in place by `Create`, `Update`,
  `UpdateFormData` and `DeleteByID`. Its object invariant `Valid()` says that
  every key `k` satisfies `1 <= k < nextID` and that the pet stored under `k`
  has identifier `k`. The listing queries `FindAll`, `FindAllByStatus` and
  `FindAllByTags` are methods with the source's loops. Each loop visits the
  keys in an arbitrary order, as Go's map iteration does. The gathered slice is
  then sorted by identifier. Each query is proved to return exactly the stored
  pets its filter keeps, each once, in strictly increasing identifier order
  (`IsSortedSelection`). Such a listing is unique (`SelectionUnique`), so the
  visiting order never shows in the result. The value types (`Pet`,
  `Category`, `Tag` and the three request records) are in module `Model`.
- **The configuration builder `newConfig`** (`config.go`). It fills a record
  with fixed defaults, then applies each option in order. An option is modelled
  as a total function `Config -> Config`. `OpenAPIConfig.NewConfig` is the
  source's loop, proved equal to the left fold `ApplyAll` of the options over
  `Defaults()`. Lemmas about the fold give the ordering properties: appending
  an option applies it last, fields no option touches keep their defaults, and
  the last write to a field wins.

Go's error results become a second out-parameter `err: Option<string>`: `None`
is Go's `nil`, and `Some("pet not found")` is the source's only error. On the
error path the methods return Go's zero pet `ZeroPet()`, as the source returns
`model.Pet{}`. `FindByID` returns the zero pet too when the lookup misses.

`router.go` never calls `newConfig`. `NewRouter` builds its configuration
through the external `spec.NewGenerator` (router.go:82), so the builder is
modelled on its own.

## Model

| member | source | states |
|---|---|---|
| `Repository.PetRepository.constructor` | examples/petstore/repository/repository.go:30-35 | A new repository has an empty table and `nextID == 1`, and satisfies the invariant. |
| `Repository.PetRepository.Create` | examples/petstore/repository/repository.go:38-55 | Never fails. The new pet's identifier is the old `nextID`, larger than every stored key. Name, category, photo URLs, tags and status are copied from the request. The pet is stored under its identifier. No other entry changes. `nextID` goes up by exactly one. The invariant is kept. |
| `Repository.PetRepository.Update` | examples/petstore/repository/repository.go:58-83 | An absent identifier gives "pet not found" and the zero pet, and changes nothing. A present identifier stores and returns `Patched(old pet, req)` under that key and touches no other entry. `nextID` and the invariant are kept. |
| `Repository.PatchedFields` | examples/petstore/repository/repository.go:67-78 | The patch replaces name, photo URLs and status only when the request's value is non-empty. It always replaces category and tags, and keeps the identifier. |
| `Repository.PatchedIdempotent` | examples/petstore/repository/repository.go:67-80 | Applying the same patch twice stores the same pet as applying it once. |
| `Repository.EmptyPatchKeepsPet` | examples/petstore/repository/repository.go:67-78 | A patch with empty name, photo URLs and status, carrying the pet's own category and tags, leaves the pet unchanged. |
| `Repository.PetRepository.UpdateFormData` | examples/petstore/repository/repository.go:86-100 | An absent identifier gives "pet not found" and the zero pet, and changes nothing. A present identifier stores and returns `WithFormData(old pet, req)` under that key, touches no other entry, and keeps `nextID` and the invariant. |
| `Repository.FormDataFields` | examples/petstore/repository/repository.go:95-96 | Form data overwrites exactly the name and the status. Identifier, category, photo URLs and tags are kept. |
| `Repository.FormDataLastWins` | examples/petstore/repository/repository.go:95-97 | Of two form-data updates to one pet, the later one alone decides the stored pet. |
| `Repository.PetRepository.FindByID` | examples/petstore/repository/repository.go:103-109 | Reports found exactly when the identifier is stored. When found it returns the stored pet, otherwise the zero pet. State is unchanged. |
| `Repository.PetRepository.FindAll` | examples/petstore/repository/repository.go:112-126 | Returns every stored pet exactly once, in strictly increasing identifier order. State is unchanged. |
| `Repository.PetRepository.FindAllByStatus` | examples/petstore/repository/repository.go:128-144 | Returns exactly the stored pets whose status equals the argument, each once, in strictly increasing identifier order. |
| `Repository.PetRepository.FindAllByTags` | examples/petstore/repository/repository.go:146-165 | Returns exactly the stored pets with at least one tag whose name is in the list, each once despite several matching tags, in strictly increasing identifier order. |
| `Repository.PetRepository.DeleteByID` | examples/petstore/repository/repository.go:168-178 | An absent identifier gives "pet not found" and changes nothing. A present one removes only that key, which lies below `nextID`. `nextID` stays where it is and the invariant is kept. |
| `Repository.DeleteThenCreate` | examples/petstore/repository/repository.go:51-52 | After a successful delete, the create that follows succeeds and never hands out the deleted identifier again. |
| `Repository.SortByID` | examples/petstore/repository/repository.go:121-123 | The in-place sort leaves a permutation of the slice, ordered by identifier. |
| `Repository.SortedByIDCopy` | examples/petstore/repository/repository.go:139-141 | The sorted slice is a permutation of the gathered one, ordered by identifier. |
| `Repository.SelectionUnique` | examples/petstore/repository/repository.go:117-123 | Any two results that list exactly the kept pets in increasing identifier order are equal. The order in which the map is visited cannot change a query's answer. |
| `Repository.FilteredSelectionOfAll` | examples/petstore/repository/repository.go:128-165 | Filtering the `FindAll` listing by status, or by tag names, gives exactly the listing `FindAllByStatus` or `FindAllByTags` must return. |
| `Repository.StoredIffListed` | examples/petstore/repository/repository.go:103-126 | In a valid table, `FindByID` finds an identifier exactly when `FindAll` lists a pet with that identifier. |
| `OpenAPIConfig.NewConfig` | config.go:8-25 | The result is the defaults with every option applied once, in list order (a left fold). With no options it is OpenAPI version "3.1.0", title "Fiber OpenAPI", an empty API version, no description, OpenAPI enabled, docs path "/docs", no security schemes, an empty UI configuration and the no-op logger. |
| `OpenAPIConfig.ApplyAllSnoc` | config.go:20-22 | Appending an option to the list applies it to what the earlier options built. |
| `OpenAPIConfig.ApplyAllConcat` | config.go:20-22 | Applying a concatenated list equals applying the first part, then the second part. |
| `OpenAPIConfig.UntouchedFieldKept` | config.go:9-22 | A field that no option in the list touches keeps the value it started with. Starting from the defaults, it keeps its default. |
| `OpenAPIConfig.LastWriteWins` | config.go:20-22 | After an option sets a field to a value, the field keeps that value when no later option touches it. |
| `OpenAPIConfig.LaterTitleWins` | config.go:11-22 | Of two title options, the later one decides the title, whatever options come between them. |
| `OpenAPIConfig.OtherSettersKeepDefaults` | config.go:10-22 | API-version, description, disable and security options leave the default OpenAPI version "3.1.0", title "Fiber OpenAPI" and docs path "/docs" in place. |
| `OpenAPIConfig.SecuritySchemesAccumulate` | config.go:16-22 | Declaring a security scheme under a second name keeps the first one. Redeclaring a name keeps the later scheme. |

## Left out

- router.go is not part of this model. Every method there forwards to `fiber.Router`, `spec.Router` or `spec.Generator`, whose source is not in this repository.
- The path translator `util.ConvertPath`, the documentation handler `handler.NewOpenAPIHandler` and the `constant` values live in the library's internal packages (`internal/util`, `internal/handler`, `internal/constant`), which this model does not cover. Nothing here assumes how they behave.
- `Validate`, `GenerateOpenAPISchema` and `WriteSchemaTo` are left out. They do schema reflection, YAML/JSON encoding and file I/O inside the external generator.
- The repository's `sync.RWMutex` is left out. Each operation is modelled as running alone.
- `Repository.PetRepository.Create`: does not model the int64 wrap-around of `nextID` after 2^63-1 creations. Identifiers are unbounded integers.
- Go slices inside pets and requests (`PhotoURL`, `Tags`) are values here. The source shares the caller's backing arrays with the stored pet. That aliasing is not modelled.
- `sort.Slice` belongs to the Go library. `SortByID` is an insertion sort that meets its contract: a permutation ordered by identifier. Go's sort is not stable, but stability does not matter here because stored identifiers are distinct.
- The option constructors (`WithTitle`, `WithSecurity`, ...) belong to the external `option` package. The model gives setter-shaped stand-ins only.
- `spec.SwaggerConfig`, `spec.SecurityScheme` and the logger interface are external. The model keeps them as small stand-in records.
- `Config.version` is the described API's own version, which the `WithVersion` option sets. `newConfig` leaves it at Go's zero value, the empty string. The OpenAPI version "3.1.0" is a separate field, set by the stand-in `WithOpenAPIVersion`.
- Other fields of `spec.Config` that `newConfig` does not set (servers, reflector settings, debug flag) are not modelled.
- `noopLogger.Printf` does nothing, and nothing here depends on it.
- The petstore HTTP handlers, the example `main` programs and the golden-file router tests are left out. They are HTTP glue and I/O.
