/** What a compressed engine archive holds once its xz and tar layers are decoded. */
module Archives {

  /** The kind of a tar entry, as TarArchiveEntry reports it. */
  datatype EntryKind =
    | SymbolicLink(linkName: string)                  // isSymbolicLink()
    | HardLink(linkName: string)                      // isLink()
    | RegularFile(content: seq<bv8>, readable: bool)  // isFile(); readable is false when reading its bytes answers -1
    | Directory                                       // isDirectory()
    | Other(typeFlag: char)                           // none of link, file or directory, as TarArchiveEntry classifies it

  datatype TarEntry = TarEntry(name: string, kind: EntryKind)

  /** The archive's raw bytes (what its digest is computed over) and its decoded entries,
      in stream order. */
  datatype Archive = Archive(bytes: seq<bv8>, entries: seq<TarEntry>)
}
