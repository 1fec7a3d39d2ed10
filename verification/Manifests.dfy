/** Manifest entries: everything a snapshot records about one path. */
module Manifests {
  import opened Rows

  /** Entry types; `Other` covers the type strings the validators refuse. */
  datatype Kind = File | Directory | Symlink | Other(name: string)

  datatype Meta = Meta(kind: Kind, mode: nat, size: int, sha256: string, target: string)

  type Entry = Row<Meta>
}
