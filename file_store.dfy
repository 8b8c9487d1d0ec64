/** The flat-file store of the run: the files on disk, the per-run read
    cache, and the temp-file / backup / rename write protocol. */
module FileStore {
  import opened Types

  /** A file on disk: its size in bytes and its content parsed as JSON
      (None when the text is not valid JSON). */
  datatype FileContent = FileContent(size: nat, doc: Option<Doc>)

  /** How the file system behaves during one write: the size of the encoded
      text and which of the protocol's steps fail. */
  datatype WriteBehaviour = WriteBehaviour(
    size: nat,
    tmpWriteFails: bool,
    readBackFails: bool,
    backupFails: bool,
    unlinkFails: bool,
    renameFails: bool,
    cleanupFails: bool)

  function Get(files: map<Path, FileContent>, p: Path): Option<FileContent>
  {
    if p in files then Some(files[p]) else None
  }

  /** What the cached reader parses from disk: nothing for a missing, an
      oversized or an unparsable file. */
  function Loadable(files: map<Path, FileContent>, p: Path): Option<Doc>
  {
    if p in files && files[p].size <= MAX_FILE_SIZE then files[p].doc else None
  }

  /** The value the cached reader returns. */
  function ReadJSONValue(cache: map<Path, Doc>, files: map<Path, FileContent>, p: Path, default: Doc): Doc
  {
    if p in cache then cache[p]
    else match Loadable(files, p)
      case Some(d) => d
      case None => default
  }

  /** The cache after a read: a parsed file is added unless the path was
      cached already. */
  function CacheAfterRead(cache: map<Path, Doc>, files: map<Path, FileContent>, p: Path): map<Path, Doc>
  {
    if p !in cache && Loadable(files, p).Some? then cache[p := Loadable(files, p).value] else cache
  }

  /** The first value parsed for a path is the one every later read of the
      run returns, whatever the file holds by then. */
  lemma CachedValueSticks(cache: map<Path, Doc>, files: map<Path, FileContent>, files': map<Path, FileContent>,
                          p: Path, default: Doc, default': Doc)
    requires p in cache || Loadable(files, p).Some?
    ensures ReadJSONValue(CacheAfterRead(cache, files, p), files', p, default') == ReadJSONValue(cache, files, p, default)
  {
  }

  /** A missing, oversized or unparsable file reads as the default and is
      not cached, so a later read sees the file again. */
  lemma DefaultNotCached(cache: map<Path, Doc>, files: map<Path, FileContent>, p: Path, default: Doc)
    requires p !in cache && Loadable(files, p).None?
    ensures ReadJSONValue(cache, files, p, default) == default
    ensures CacheAfterRead(cache, files, p) == cache
  {
  }

  /** Nesting depth of sibling suffixes, so that ".tmp" and ".bak" siblings
      are told apart from their targets. */
  function Depth(p: Path): nat
  {
    match p
    case Tmp(q) => Depth(q) + 1
    case Bak(q) => Depth(q) + 1
    case _ => 0
  }

  lemma SiblingsDiffer(p: Path)
    ensures Tmp(p) != p && Bak(p) != p && Tmp(p) != Bak(p)
  {
    assert Depth(Tmp(p)) == Depth(p) + 1 == Depth(Bak(p));
  }

  /** The write gets past writing and re-reading the temp file. */
  predicate TmpValidated(b: WriteBehaviour)
  {
    !b.tmpWriteFails && !b.readBackFails
  }

  /** The write reports success. */
  predicate Succeeds(files: map<Path, FileContent>, p: Path, b: WriteBehaviour)
  {
    TmpValidated(b) && !(p in files && b.unlinkFails) && !b.renameFails
  }

  /** The write copies the previous target to the ".bak" sibling. */
  predicate BacksUp(files: map<Path, FileContent>, p: Path, b: WriteBehaviour)
  {
    TmpValidated(b) && p in files && !b.backupFails
  }

  /** The target was unlinked and the rename then failed: the target is gone. */
  predicate LosesTarget(files: map<Path, FileContent>, p: Path, b: WriteBehaviour)
  {
    TmpValidated(b) && p in files && !b.unlinkFails && b.renameFails
  }

  /** The failure arm: the temp file is removed if it exists, unless that
      fails too. */
  function Cleanup(files: map<Path, FileContent>, tmp: Path, b: WriteBehaviour): map<Path, FileContent>
  {
    if tmp in files && !b.cleanupFails then files - {tmp} else files
  }

  /** The files after one safeWriteJSONFile of doc to p. */
  function AfterWrite(files: map<Path, FileContent>, p: Path, doc: Doc, b: WriteBehaviour): map<Path, FileContent>
  {
    var tmp := Tmp(p);
    var text := FileContent(b.size, Some(doc));
    if b.tmpWriteFails then Cleanup(files, tmp, b)
    else
      var f1 := files[tmp := text];
      if b.readBackFails then Cleanup(f1, tmp, b)
      else
        var f2 := if p in files && !b.backupFails then f1[Bak(p) := files[p]] else f1;
        if p in files && b.unlinkFails then Cleanup(f2, tmp, b)
        else
          var f3 := f2 - {p};
          if b.renameFails then Cleanup(f3, tmp, b)
          else f3[p := text] - {tmp}
  }

  /** What one write does to the target, its ".bak" and ".tmp" siblings and
      every other file: on success the target holds the new text, the
      backup the previous target (if there was one and the copy worked) and
      no temp file is left; a failure before the unlink leaves the target as
      it was; a rename failure after the unlink loses it. */
  lemma AfterWriteEffects(files: map<Path, FileContent>, p: Path, doc: Doc, b: WriteBehaviour)
    ensures var f := AfterWrite(files, p, doc, b);
      && (Succeeds(files, p, b) ==> Get(f, p) == Some(FileContent(b.size, Some(doc))) && Tmp(p) !in f)
      && (!Succeeds(files, p, b) && !LosesTarget(files, p, b) ==> Get(f, p) == Get(files, p))
      && (LosesTarget(files, p, b) ==> p !in f)
      && Get(f, Bak(p)) == (if BacksUp(files, p, b) then Some(files[p]) else Get(files, Bak(p)))
      && (!Succeeds(files, p, b) && !b.cleanupFails ==> Tmp(p) !in f)
      && (forall q :: q != p && q != Tmp(p) && q != Bak(p) ==> Get(f, q) == Get(files, q))
  {
    SiblingsDiffer(p);
  }

  /** What a direct read (`existsSync`, `readFileSync`, `JSON.parse`) yields:
      no cache and no size limit; None for a missing or unparsable file. */
  function DirectRead(files: map<Path, FileContent>, p: Path): (r: Option<Doc>)
    ensures r.Some? ==> p in files && files[p].doc == r
    ensures p in files ==> r == files[p].doc
  {
    if p in files then files[p].doc else None
  }

  /** The direct read and the cached reader agree on an uncached file
      within the size limit. They part on an oversized file, which only the
      direct read parses, and on a cached path that has since been written,
      where the direct read sees the new document and the cached reader the
      value parsed first. */
  lemma DirectReadMatchesReader(cache: map<Path, Doc>, files: map<Path, FileContent>, p: Path, default: Doc,
                                doc: Doc, b: WriteBehaviour)
    ensures p !in cache && (p in files ==> files[p].size <= MAX_FILE_SIZE) ==>
      ReadJSONValue(cache, files, p, default) == (match DirectRead(files, p) case Some(d) => d case None => default)
    ensures p !in cache && p in files && files[p].size > MAX_FILE_SIZE ==>
      ReadJSONValue(cache, files, p, default) == default && DirectRead(files, p) == files[p].doc
    ensures p in cache && Succeeds(files, p, b) ==>
      DirectRead(AfterWrite(files, p, doc, b), p) == Some(doc)
      && ReadJSONValue(cache, AfterWrite(files, p, doc, b), p, default) == cache[p]
  {
    AfterWriteEffects(files, p, doc, b);
  }

  /** One write of a batch: the path and the document. */
  datatype Write = Write(path: Path, doc: Doc)

  /** The files after a batch of writes, the k-th of them with the
      behaviour of the (n + k)-th write of the run. */
  function ApplyWrites(files: map<Path, FileContent>, ws: seq<Write>, behaviour: nat -> WriteBehaviour, n: nat): map<Path, FileContent>
  {
    if ws == [] then files
    else
      var w := ws[|ws| - 1];
      AfterWrite(ApplyWrites(files, ws[..|ws| - 1], behaviour, n), w.path, w.doc, behaviour(n + |ws| - 1))
  }

  lemma {:induction false} ApplyWritesAppend(files: map<Path, FileContent>, a: seq<Write>, b: seq<Write>, behaviour: nat -> WriteBehaviour, n: nat)
    ensures ApplyWrites(files, a + b, behaviour, n) == ApplyWrites(ApplyWrites(files, a, behaviour, n), b, behaviour, n + |a|)
    decreases |b|
  {
    if b == [] {
      assert a + b == a;
    } else {
      assert (a + b)[..|a + b| - 1] == a + b[..|b| - 1];
      ApplyWritesAppend(files, a, b[..|b| - 1], behaviour, n);
    }
  }

  /** A batch of one write is that write. */
  lemma ApplyWritesSingle(files: map<Path, FileContent>, w: Write, behaviour: nat -> WriteBehaviour, n: nat)
    ensures ApplyWrites(files, [w], behaviour, n) == AfterWrite(files, w.path, w.doc, behaviour(n))
  {
    assert [w][..0] == [];
  }

  /** A batch followed by one more write. */
  lemma ApplyWritesSnoc(files: map<Path, FileContent>, ws: seq<Write>, w: Write, behaviour: nat -> WriteBehaviour, n: nat)
    ensures ApplyWrites(files, ws + [w], behaviour, n)
      == AfterWrite(ApplyWrites(files, ws, behaviour, n), w.path, w.doc, behaviour(n + |ws|))
  {
    assert (ws + [w])[..|ws|] == ws;
  }

  /** Writes leave every path they do not name, nor a sibling of one, as it
      was. */
  lemma {:induction false} ApplyWritesFrame(files: map<Path, FileContent>, ws: seq<Write>, behaviour: nat -> WriteBehaviour, n: nat, q: Path)
    requires forall k :: 0 <= k < |ws| ==> q != ws[k].path && q != Tmp(ws[k].path) && q != Bak(ws[k].path)
    ensures Get(ApplyWrites(files, ws, behaviour, n), q) == Get(files, q)
    decreases |ws|
  {
    if ws != [] {
      var w := ws[|ws| - 1];
      ApplyWritesFrame(files, ws[..|ws| - 1], behaviour, n, q);
      AfterWriteEffects(ApplyWrites(files, ws[..|ws| - 1], behaviour, n), w.path, w.doc, behaviour(n + |ws| - 1));
    }
  }

  /** A batch is its writes up to the k-th, then the k-th, then the rest. */
  lemma ApplyWritesSplitAt(files: map<Path, FileContent>, ws: seq<Write>, behaviour: nat -> WriteBehaviour, n: nat, k: nat)
    requires k < |ws|
    ensures ApplyWrites(files, ws, behaviour, n)
      == ApplyWrites(AfterWrite(ApplyWrites(files, ws[..k], behaviour, n), ws[k].path, ws[k].doc, behaviour(n + k)),
                     ws[k + 1..], behaviour, n + k + 1)
  {
    var pre, w, rest := ws[..k], ws[k], ws[k + 1..];
    var head := pre + [w];
    assert ws == head + rest && |head| == k + 1;
    ApplyWritesSnoc(files, pre, w, behaviour, n);
    ApplyWritesAppend(files, head, rest, behaviour, n);
  }

  /** A successful write whose path no later write of the batch names,
      nor a sibling of one, leaves its document in place at the end of the
      batch. */
  lemma ApplyWritesLastAt(files: map<Path, FileContent>, ws: seq<Write>, behaviour: nat -> WriteBehaviour, n: nat, k: nat)
    requires k < |ws|
    requires forall j :: k < j < |ws| ==>
      ws[k].path != ws[j].path && ws[k].path != Tmp(ws[j].path) && ws[k].path != Bak(ws[j].path)
    requires Succeeds(ApplyWrites(files, ws[..k], behaviour, n), ws[k].path, behaviour(n + k))
    ensures Get(ApplyWrites(files, ws, behaviour, n), ws[k].path) == Some(FileContent(behaviour(n + k).size, Some(ws[k].doc)))
  {
    var w, rest := ws[k], ws[k + 1..];
    var f0 := ApplyWrites(files, ws[..k], behaviour, n);
    var f1 := AfterWrite(f0, w.path, w.doc, behaviour(n + k));
    ApplyWritesSplitAt(files, ws, behaviour, n, k);
    AfterWriteEffects(f0, w.path, w.doc, behaviour(n + k));
    forall j | 0 <= j < |rest|
      ensures w.path != rest[j].path && w.path != Tmp(rest[j].path) && w.path != Bak(rest[j].path)
    {
      assert rest[j] == ws[k + 1 + j];
    }
    ApplyWritesFrame(f1, rest, behaviour, n + k + 1, w.path);
  }

  /** A JSON ledger keeps its users as the keys of an object, so no
      address is listed twice in a ledger document. */
  predicate DocDistinct(d: Doc)
  {
    d.LedgerDoc? ==> Distinct(d.ledger.users)
  }

  /** Every parsable file on disk holds a document of that shape. */
  ghost predicate FilesDistinct(files: map<Path, FileContent>)
  {
    forall p :: p in files && files[p].doc.Some? ==> DocDistinct(files[p].doc.value)
  }

  /** Every cached document has that shape. */
  ghost predicate CacheDistinct(cache: map<Path, Doc>)
  {
    forall p :: p in cache ==> DocDistinct(cache[p])
  }

  /** Both readers return documents of that shape. */
  lemma ReadDistinct(cache: map<Path, Doc>, files: map<Path, FileContent>, p: Path, default: Doc)
    requires CacheDistinct(cache) && FilesDistinct(files) && DocDistinct(default)
    ensures DocDistinct(ReadJSONValue(cache, files, p, default))
    ensures DirectRead(files, p).Some? ==> DocDistinct(DirectRead(files, p).value)
    ensures CacheDistinct(CacheAfterRead(cache, files, p))
  {
  }

  /** Writes of documents of that shape keep every file of that shape: each
      file afterwards holds a written document or an earlier file. */
  lemma {:induction false} ApplyWritesDistinct(files: map<Path, FileContent>, ws: seq<Write>, behaviour: nat -> WriteBehaviour, n: nat)
    requires FilesDistinct(files)
    requires forall k :: 0 <= k < |ws| ==> DocDistinct(ws[k].doc)
    ensures FilesDistinct(ApplyWrites(files, ws, behaviour, n))
    decreases |ws|
  {
    if ws != [] {
      var w := ws[|ws| - 1];
      var f := ApplyWrites(files, ws[..|ws| - 1], behaviour, n);
      ApplyWritesDistinct(files, ws[..|ws| - 1], behaviour, n);
      AfterWriteDistinct(f, w.path, w.doc, behaviour(n + |ws| - 1));
    }
  }

  lemma AfterWriteDistinct(files: map<Path, FileContent>, p: Path, doc: Doc, b: WriteBehaviour)
    requires FilesDistinct(files) && DocDistinct(doc)
    ensures FilesDistinct(AfterWrite(files, p, doc, b))
  {
    var f := AfterWrite(files, p, doc, b);
    forall q | q in f && f[q].doc.Some?
      ensures DocDistinct(f[q].doc.value)
    {
      AfterWriteEffects(files, p, doc, b);
      if q != p && q != Tmp(p) && q != Bak(p) {
        assert Get(f, q) == Get(files, q);
      }
    }
  }

  class Store {
    /** The files on disk. */
    var files: map<Path, FileContent>
    /** The module-level cache of parsed files, keyed by path. */
    var cache: map<Path, Doc>
    /** How many writes have been attempted in this run. */
    var writes: nat
    /** The file system's behaviour for the n-th write of the run. */
    const behaviour: nat -> WriteBehaviour

    constructor (files0: map<Path, FileContent>, behaviour0: nat -> WriteBehaviour)
      ensures files == files0 && cache == map[] && writes == 0 && behaviour == behaviour0
    {
      files := files0;
      cache := map[];
      writes := 0;
      behaviour := behaviour0;
    }

    /** readJSONFile: the cached value if the path was parsed before in this
        run; otherwise the parsed file, which is then cached; otherwise (no
        file, too large, not JSON) the default, which is not cached. Values
        are immutable here, so the defensive copy is the value itself. */
    method ReadJSON(p: Path, default: Doc) returns (v: Doc)
      modifies this`cache
      ensures v == ReadJSONValue(old(cache), files, p, default)
      ensures cache == CacheAfterRead(old(cache), files, p)
    {
      if p in cache {
        v := cache[p];
        return;
      }
      if p in files {
        var f := files[p];
        if f.size > MAX_FILE_SIZE {
          v := default;
          return;
        }
        match f.doc {
          case Some(d) =>
            cache := cache[p := d];
            v := d;
          case None =>
            v := default;
        }
      } else {
        v := default;
      }
    }

    /** safeWriteJSONFile: write the temp sibling, read it back, copy any
        existing target to ".bak" (best effort), unlink the target, rename
        the temp file into place; on failure remove the temp file (best
        effort) and report false. */
    method SafeWrite(p: Path, doc: Doc) returns (ok: bool)
      modifies this`files, this`writes
      ensures writes == old(writes) + 1
      ensures ok == Succeeds(old(files), p, behaviour(old(writes)))
      ensures files == AfterWrite(old(files), p, doc, behaviour(old(writes)))
    {
      SiblingsDiffer(p);
      var b := behaviour(writes);
      writes := writes + 1;
      var tmp := Tmp(p);
      var text := FileContent(b.size, Some(doc));
      if b.tmpWriteFails {
        DropTmp(tmp, b);
        return false;
      }
      files := files[tmp := text];
      if b.readBackFails {
        DropTmp(tmp, b);
        return false;
      }
      if p in files {
        if !b.backupFails {
          files := files[Bak(p) := files[p]];
        }
        if b.unlinkFails {
          DropTmp(tmp, b);
          return false;
        }
        files := files - {p};
      } else {
        assert files == files - {p};
      }
      assert files[tmp] == text;
      if b.renameFails {
        DropTmp(tmp, b);
        return false;
      }
      files := files[p := files[tmp]] - {tmp};
      return true;
    }

    /** The best-effort removal of the temp file after a failure. */
    method DropTmp(tmp: Path, b: WriteBehaviour)
      modifies this`files
      ensures files == Cleanup(old(files), tmp, b)
    {
      if tmp in files && !b.cleanupFails {
        files := files - {tmp};
      }
    }
  }
}
