/**
  Record identifiers and content hashes.

  The repository derives identifiers from SHA-256 over a tuple of parts. A digest is
  modelled by the tuple it hashes, so it is injective and nothing else is assumed of it.
*/
module Digests {
  import opened Orders

  type Id = Key

  function IdKey(id: Id): Key { id }

  /** The parts of an identifier that are all strings. */
  function IdOf(parts: seq<string>): Id {
    if parts == [] then [] else [Text(parts[0])] + IdOf(parts[1..])
  }
}
