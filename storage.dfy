/** The FAISS index directories under the index root, as a map from a
    directory's path (its components) to what is stored in it. A saved index
    is the list of documents it was built from; which of them a similarity
    search returns is left to the retriever oracles elsewhere. */
module Storage {
  import opened Common

  type Path = seq<string>

  /** The length of the leading run of characters other than '/'. */
  function NameLen(s: string): (n: nat)
    ensures n <= |s| && (forall i :: 0 <= i < n ==> s[i] != '/') && (n < |s| ==> s[n] == '/')
  {
    if s == [] || s[0] == '/' then 0 else 1 + NameLen(s[1..])
  }

  /** The directory levels a path string names: its non-empty
      '/'-separated names, in order ("a//b/" names the levels "a" and "b"). */
  function Components(s: string): (r: seq<string>)
    ensures forall c :: c in r ==> c != "" && '/' !in c
    decreases |s|
  {
    if s == [] then []
    else if s[0] == '/' then Components(s[1..])
    else
      var n := NameLen(s);
      assert forall c :: c in s[..n] ==> c != '/';
      [s[..n]] + Components(s[n..])
  }

  /** `os.path.join(p, part)`, as the file system then reads the path: a
      part that starts with '/' starts again from the root; otherwise each of
      its names is one more level, so a trailing '/' or an empty part adds
      none. */
  function PathJoin(p: Path, part: string): Path {
    if part != [] && part[0] == '/' then Components(part) else p + Components(part)
  }

  /** A name without '/' is one level, or none when it is empty. */
  lemma NameComponents(s: string)
    requires '/' !in s
    ensures Components(s) == if s == [] then [] else [s]
  {
    if s != [] {
      NameLenOfName(s);
      assert s[..|s|] == s && s[|s|..] == [];
    }
  }

  lemma {:induction false} NameLenOfName(s: string)
    requires '/' !in s
    ensures NameLen(s) == |s|
  {
    if s != [] {
      assert forall c :: c in s[1..] ==> c in s;
      NameLenOfName(s[1..]);
    }
  }

  /** A name followed by '/' is the same single level: `os.path.join`
      writes no second separator after it. */
  lemma TrailingSlashComponents(t: string)
    requires '/' !in t && t != []
    ensures Components(t + "/") == [t]
  {
    var s := t + "/";
    NameLenBeforeSlash(t);
    assert s[..|t|] == t && s[|t|..] == "/";
    assert Components("/") == Components("");
  }

  lemma {:induction false} NameLenBeforeSlash(t: string)
    requires '/' !in t
    ensures NameLen(t + "/") == |t|
  {
    if t != [] {
      assert (t + "/")[1..] == t[1..] + "/";
      assert forall c :: c in t[1..] ==> c in t;
      NameLenBeforeSlash(t[1..]);
    }
  }

  datatype MetaValue = MText(text: string) | MReal(r: real) | MInt(i: int) | MNull

  /** A LangChain `Document`: page content and a metadata dictionary. */
  datatype Document = Document(content: string, meta: map<string, MetaValue>)

  /** A saved vector store: the chunks it indexes. */
  datatype Index = Index(docs: seq<Document>)

  /** One index directory: whether `index.faiss` is in it, and what
      `FAISS.load_local` yields (`None` when loading raises). */
  datatype IndexDir = IndexDir(hasFaiss: bool, load: Option<Index>)

  type Fs = map<Path, IndexDir>

  /** `os.path.exists(p)`: `p` is an index directory or one of its ancestors. */
  predicate Exists(fs: Fs, p: Path) {
    exists k :: k in fs && p <= k
  }

  /** `save_local(p)` after `os.makedirs(p, exist_ok=True)`. */
  function Save(fs: Fs, p: Path, index: Index): Fs {
    fs[p := IndexDir(true, Some(index))]
  }

  /** Saving writes one directory and leaves every other one as it was. */
  lemma SaveEffect(fs: Fs, p: Path, index: Index)
    ensures var r := Save(fs, p, index);
            p in r && r[p] == IndexDir(true, Some(index))
            && (forall k :: k in fs && k != p ==> k in r && r[k] == fs[k])
            && (forall k :: k in r ==> k == p || k in fs)
  {
  }

  /** `shutil.rmtree(p)`: every directory at or below `p` is gone. */
  function RemoveTree(fs: Fs, p: Path): (r: Fs)
    ensures !Exists(r, p)
    ensures forall k :: k in fs && !(p <= k) ==> k in r && r[k] == fs[k]
    ensures forall k :: k in r ==> k in fs
  {
    map k | k in fs && !(p <= k) :: fs[k]
  }

  /** An index that was just saved loads back as exactly that index. */
  lemma SaveThenLoad(fs: Fs, p: Path, index: Index)
    ensures Exists(Save(fs, p, index), p)
    ensures Save(fs, p, index)[p].hasFaiss && Save(fs, p, index)[p].load == Some(index)
  {
    assert p in Save(fs, p, index) && p <= p;
  }
}
