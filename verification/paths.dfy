/**
 * Remote path construction: POSIX `os.path.join` of two components,
 * followed by replacing every backslash with a forward slash.
 */
module Paths {

  const Sep: char := '/'
  const Backslash: char := '\\'

  /** `posixpath.join(a, b)`: an absolute `b` replaces `a`; otherwise a separator
      is inserted unless `a` is empty or already ends with one. */
  function Join(a: string, b: string): string {
    if |b| > 0 && b[0] == Sep then b
    else if |a| == 0 || a[|a| - 1] == Sep then a + b
    else a + [Sep] + b
  }

  /** An absolute second component wins; otherwise `a` is a prefix and `b` a suffix
      of the joined path, with one separator between them exactly when `a` is
      non-empty and does not already end in one. */
  lemma JoinShape(a: string, b: string)
    ensures |b| > 0 && b[0] == Sep ==> Join(a, b) == b
    ensures var r := Join(a, b);
            (|b| == 0 || b[0] != Sep) ==>
              && |a| + |b| <= |r| <= |a| + |b| + 1
              && r[..|a|] == a
              && r[|r| - |b|..] == b
              && (|r| == |a| + |b| + 1 <==> |a| > 0 && a[|a| - 1] != Sep)
              && (|r| == |a| + |b| + 1 ==> r[|a|] == Sep)
  {
  }

  /** One character of `str.replace("\\", "/")`. */
  function Forward(c: char): char {
    if c == Backslash then Sep else c
  }

  /** `s.replace("\\", "/")`. */
  function ForwardSlashes(s: string): (r: string)
    ensures |r| == |s|
  {
    if s == [] then [] else [Forward(s[0])] + ForwardSlashes(s[1..])
  }

  /** Replacement maps every character on its own: backslash to slash, the rest unchanged. */
  lemma {:induction false} ForwardSlashesPointwise(s: string)
    ensures forall i :: 0 <= i < |s| ==> ForwardSlashes(s)[i] == Forward(s[i])
  {
    if s != [] {
      ForwardSlashesPointwise(s[1..]);
      forall i | 0 < i < |s|
        ensures ForwardSlashes(s)[i] == Forward(s[i])
      {
        assert ForwardSlashes(s)[i] == ForwardSlashes(s[1..])[i - 1];
      }
    }
  }

  /** After replacement no backslash is left; a string without backslashes is left
      as it is; and replacing twice is replacing once. */
  lemma ForwardSlashesRemovesBackslashes(s: string)
    ensures Backslash !in ForwardSlashes(s)
    ensures Backslash !in s ==> ForwardSlashes(s) == s
    ensures ForwardSlashes(ForwardSlashes(s)) == ForwardSlashes(s)
  {
    ForwardSlashesPointwise(s);
    ForwardSlashesPointwise(ForwardSlashes(s));
  }

  /** Replacement works character by character, so it splits over concatenation. */
  lemma ForwardSlashesAppend(a: string, b: string)
    ensures ForwardSlashes(a + b) == ForwardSlashes(a) + ForwardSlashes(b)
  {
    ForwardSlashesPointwise(a);
    ForwardSlashesPointwise(b);
    ForwardSlashesPointwise(a + b);
  }

  /** The Dropbox path a local file name is uploaded to. */
  function RemotePath(remoteFolder: string, name: string): string {
    ForwardSlashes(Join(remoteFolder, name))
  }

  /** A remote path never holds a backslash, and the name ends it, with its
      backslashes turned into slashes. */
  lemma RemotePathShape(remoteFolder: string, name: string)
    ensures Backslash !in RemotePath(remoteFolder, name)
    ensures var r := RemotePath(remoteFolder, name);
            |name| <= |r| && r[|r| - |name|..] == ForwardSlashes(name)
  {
    var j := Join(remoteFolder, name);
    JoinShape(remoteFolder, name);
    ForwardSlashesRemovesBackslashes(j);
    var k := |j| - |name|;
    assert j == j[..k] + name;
    ForwardSlashesAppend(j[..k], name);
  }

  /** With the default remote folder "/", a plain name lands directly under the root. */
  lemma RootRemotePath(name: string)
    requires |name| == 0 || name[0] != Sep
    ensures RemotePath("/", name) == "/" + ForwardSlashes(name)
    ensures Backslash !in name ==> RemotePath("/", name) == "/" + name
  {
    assert Join("/", name) == "/" + name;
    ForwardSlashesAppend("/", name);
    ForwardSlashesRemovesBackslashes("/");
    ForwardSlashesRemovesBackslashes(name);
  }
}
