/** A snapshot of the local folder the reconciler watches. */
module LocalFs {
  import opened Optional

  /** What a directory entry is once symbolic links are followed. */
  datatype Kind = RegularFile | Directory | Other

  /** The watched path: missing, present but not listable (a regular file, say,
      or a directory the process may not read), or a directory with its entries. */
  datatype LocalFolder = Absent | Unlistable | Dir(entries: map<string, Kind>)

  /** `os.path.exists`. */
  predicate Exists(f: LocalFolder) {
    !f.Absent?
  }

  /** `get_files_in_folder`: the names of the regular files directly in the folder;
      `None` where `os.listdir` raises. */
  function GetFilesInFolder(f: LocalFolder): (r: Option<set<string>>)
    ensures r.Some? <==> f.Dir?
    ensures r.Some? ==> r.value <= f.entries.Keys
    ensures r.Some? ==> forall n :: n in f.entries ==> (n in r.value <==> f.entries[n] == RegularFile)
  {
    match f
    case Dir(entries) => Some(set n | n in entries && entries[n] == RegularFile)
    case _ => None
  }

  /** Subdirectories and other non-regular entries never reach the listing. */
  lemma ListingSkipsNonFiles(entries: map<string, Kind>, n: string)
    requires n in entries && entries[n] != RegularFile
    ensures n !in GetFilesInFolder(Dir(entries)).value
  {
  }

  /** The listing of the example folder: its two files, not its subdirectory. */
  lemma ExampleListing()
    ensures GetFilesInFolder(Dir(map["a.txt" := RegularFile, "b.txt" := RegularFile, "docs" := Directory]))
            == Some({"a.txt", "b.txt"})
  {
    var entries := map["a.txt" := RegularFile, "b.txt" := RegularFile, "docs" := Directory];
    var listed := GetFilesInFolder(Dir(entries)).value;
    assert entries["a.txt"] == RegularFile && entries["b.txt"] == RegularFile;
    assert "a.txt" in listed && "b.txt" in listed;
    forall n | n in listed ensures n == "a.txt" || n == "b.txt" {
      assert n in entries.Keys && entries[n] == RegularFile;
    }
    assert listed == {"a.txt", "b.txt"};
  }
}
