/** An entry of a batch that asks for a deletion carries the id to delete behind a prefix. */
module Deletions {
  import opened Text

  const ID_DELETE_PREFIX := "__$$delete$$__"

  predicate IsDelete(id: string) {
    HasPrefix(id, ID_DELETE_PREFIX)
  }

  function DeletedId(id: string): string
    requires IsDelete(id)
  {
    id[|ID_DELETE_PREFIX|..]
  }
}
