/**
 * The petstore's value types (examples/petstore/model/model.go).
 * Go's int64 identifiers are unbounded `int`s here; JSON and binding tags are not modelled.
 */
module Model {

  datatype Category = Category(id: int, name: string)

  datatype Tag = Tag(id: int, name: string)

  datatype Pet = Pet(
    id: int,
    name: string,
    category: Category,
    photoURLs: seq<string>,
    tags: seq<Tag>,
    status: string)

  datatype CreatePetRequest = CreatePetRequest(
    name: string,
    category: Category,
    photoURLs: seq<string>,
    tags: seq<Tag>,
    status: string)

  datatype UpdatePetRequest = UpdatePetRequest(
    id: int,
    name: string,
    category: Category,
    photoURLs: seq<string>,
    tags: seq<Tag>,
    status: string)

  datatype UpdatePetFormData = UpdatePetFormData(id: int, name: string, status: string)

  /** Go's zero value `model.Pet{}`, returned beside an error or a failed lookup. */
  function ZeroPet(): Pet {
    Pet(0, "", Category(0, ""), [], [], "")
  }
}
