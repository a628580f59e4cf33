/**
  Bulk extraction of the game's `.arc` archives into one directory, with the
  manifest of every extracted relative path.

  An archive is an 8-byte header (magic, a 16-bit word, a 16-bit entry
  count) followed by a body, encrypted in "ARCC" archives. The body starts
  with one 144-byte entry per file: a zero-terminated path in a 128-byte slot,
  then the type hash, the compressed size, the decompressed size and the
  offset of the compressed bytes counted from the start of the file.

  Decryption and decompression are calls into code outside this model, so
  they are parameters; the extraction directory is a map from relative path
  to contents.
*/
module Arc {
  import opened Binary
  import opened Cursor
  import opened Registry
  import opened Manifest

  /** "ARCC" read as a little-endian word: an encrypted archive. */
  const EncryptedMagic: nat := 0x4343_5241
  /** "ARC\0" read as a little-endian word: a plain archive. */
  const PlainMagic: nat := 0x0043_5241
  const HeaderSize: nat := 8
  const EntrySize: nat := 144
  const PathSlot: nat := 128
  /** The directory, under the installation, whose loose files are copied. */
  const NativeRoot: string := "nativeDX11x64"

  datatype Kind = Encrypted | Plain | Unrecognised

  /**
    The classification as the extractor is written: the plain branch compares
    the integer magic with a byte string, which never holds, so a plain
    archive is reported as unrecognised and skipped.
  */
  function ClassifyAsWritten(magic: nat): (k: Kind)
    ensures k != Plain
  {
    if magic == EncryptedMagic then Encrypted else Unrecognised
  }

  /** The classification the plain branch evidently means. */
  function Classify(magic: nat): (k: Kind)
    ensures k == Encrypted <==> magic == EncryptedMagic
    ensures k == Plain <==> magic == PlainMagic
  {
    if magic == EncryptedMagic then Encrypted
    else if magic == PlainMagic then Plain
    else Unrecognised
  }

  /** The two classifications disagree on plain archives and nowhere else. */
  lemma ClassifyAsWrittenSkipsPlain(magic: nat)
    ensures ClassifyAsWritten(magic) != Classify(magic) <==> magic == PlainMagic
    ensures ClassifyAsWritten(PlainMagic) == Unrecognised && Classify(PlainMagic) == Plain
  {
  }

  /**
    What a run depends on besides its inputs: the classification of the
    magic word (`ClassifyAsWritten` for the extractor as it stands, `Classify`
    for the intended one) and the calls into code outside this model.
  */
  datatype Environment = Environment(
    classify: nat -> Kind,
    decrypt: seq<uint8> -> seq<uint8>,        // the Blowfish library, in place on the body
    inflate: seq<uint8> -> Option<seq<uint8>>) // zlib.decompress; None for a zlib error

  /** One entry of the table, with the offset already made relative to the body. */
  datatype Entry = Entry(path: string, hash: nat, csize: nat, dsize: nat, offset: int)

  /** An entry whose type is registered, with the extension it extracts to. */
  datatype FileInfo = FileInfo(path: string, ext: string, csize: nat, dsize: nat, offset: int)

  /** `s.replace("\\", "/")`. */
  function Slashes(s: string): (r: string)
    ensures |r| == |s|
    ensures forall i :: 0 <= i < |s| ==> r[i] == (if s[i] == '\\' then '/' else s[i])
  {
    seq(|s|, i requires 0 <= i < |s| => if s[i] == '\\' then '/' else s[i])
  }

  lemma SlashesIdempotent(s: string)
    ensures Slashes(Slashes(s)) == Slashes(s)
  {
  }

  lemma SlashesAppend(s: string, t: string)
    ensures Slashes(s + t) == Slashes(s) + Slashes(t)
  {
  }

  // ---------------------------------------------------------------------------
  // Reading one archive

  /** The magic and the entry count, read from the start of the file. */
  function Header(data: seq<uint8>): Result<(nat, nat)>
  {
    var magic :- UIntAt(data, 0, 4);
    var _ :- UIntAt(data, 4, 2);
    var count :- UIntAt(data, 6, 2);
    Ok((magic, count))
  }

  lemma HeaderNeedsEightBytes(data: seq<uint8>)
    ensures Header(data).Ok? <==> |data| >= HeaderSize
    ensures Header(data).Err? ==> Header(data).error == Underrun
  {
    BytesFrom(data, 0, 4);
    BytesFrom(data, 4, 2);
    BytesFrom(data, 6, 2);
  }

  /** Entry `i`: its path from the start of its slot, its four words after the slot. */
  function EntryAt(body: seq<uint8>, i: nat): Result<Entry>
  {
    var start := EntrySize * i;
    var name :- CStringAt(body, start);
    var rec :- Bytes(body, start + PathSlot, 16);
    Ok(Entry(Slashes(name), Field(rec, 0, 4), Field(rec, 4, 4), Field(rec, 8, 4),
             Field(rec, 12, 4) - HeaderSize))
  }

  function EntryFn(body: seq<uint8>): nat -> Result<Entry>
  {
    (i: nat) => EntryAt(body, i)
  }

  function Info(e: Entry, ext: string): FileInfo
  {
    FileInfo(e.path, ext, e.csize, e.dsize, e.offset)
  }

  /**
    The first `n` entries, keeping those whose type hash is registered. Every
    entry is read, registered or not, so a short body fails the archive.
  */
  function KnownEntries(body: seq<uint8>, n: nat, exts: map<nat, string>): Result<seq<FileInfo>>
  {
    Registered(n, EntryFn(body), exts)
  }

  /** The registered entries among `f(0), ..., f(n-1)`; the first failure ends the listing. */
  function Registered(n: nat, f: nat -> Result<Entry>, exts: map<nat, string>): Result<seq<FileInfo>>
  {
    if n == 0 then Ok([])
    else
      var prev :- Registered(n - 1, f, exts);
      var e :- f(n - 1);
      Ok(if e.hash in exts then prev + [Info(e, exts[e.hash])] else prev)
  }

  lemma {:induction false} RegisteredSticky(i: nat, n: nat, f: nat -> Result<Entry>, exts: map<nat, string>)
    requires i <= n && Registered(i, f, exts).Err?
    ensures Registered(n, f, exts) == Registered(i, f, exts)
    decreases n - i
  {
    if i < n {
      RegisteredSticky(i, n - 1, f, exts);
    }
  }

  lemma KnownEntriesSticky(body: seq<uint8>, i: nat, n: nat, exts: map<nat, string>)
    requires i <= n && KnownEntries(body, i, exts).Err?
    ensures KnownEntries(body, n, exts) == KnownEntries(body, i, exts)
  {
    RegisteredSticky(i, n, EntryFn(body), exts);
  }

  /** The registered entries of `es`, in order. */
  function Keep(es: seq<Entry>, exts: map<nat, string>): seq<FileInfo>
  {
    if es == [] then []
    else
      var prev := Keep(es[..|es| - 1], exts);
      var e := es[|es| - 1];
      if e.hash in exts then prev + [Info(e, exts[e.hash])] else prev
  }

  /** `Keep` keeps exactly the registered entries, each with its registered extension. */
  lemma {:induction false} KeepSpec(es: seq<Entry>, exts: map<nat, string>)
    ensures forall x :: x in Keep(es, exts) <==>
      exists e :: e in es && e.hash in exts && x == Info(e, exts[e.hash])
  {
    if es != [] {
      var init := es[..|es| - 1];
      KeepSpec(init, exts);
      assert es == init + [es[|es| - 1]];
    }
  }

  /**
    Reading the entries is reading all `n` of them, failing with the first
    failure, and then keeping the registered ones in order.
  */
  predicate ListsAll(n: nat, f: nat -> Result<Entry>, exts: map<nat, string>)
  {
    var all := Collect(n, f);
    Registered(n, f, exts) == if all.Ok? then Ok(Keep(all.value, exts)) else Err(all.error)
  }

  lemma {:induction false} RegisteredSpec(n: nat, f: nat -> Result<Entry>, exts: map<nat, string>)
    ensures ListsAll(n, f, exts)
  {
    if n > 0 {
      RegisteredSpec(n - 1, f, exts);
      RegisteredStep(n, f, exts);
    }
  }

  lemma RegisteredStep(n: nat, f: nat -> Result<Entry>, exts: map<nat, string>)
    requires n > 0 && ListsAll(n - 1, f, exts)
    ensures ListsAll(n, f, exts)
  {
    var all := Collect(n - 1, f);
    if all.Ok? && f(n - 1).Ok? {
      var prev, e := all.value, f(n - 1).value;
      KeepSnoc(prev, e, exts);
      assert Collect(n, f) == Ok(prev + [e]);
    }
  }

  lemma KnownEntriesSpec(body: seq<uint8>, n: nat, exts: map<nat, string>)
    ensures var all := Collect(n, EntryFn(body));
      KnownEntries(body, n, exts) == if all.Ok? then Ok(Keep(all.value, exts)) else Err(all.error)
  {
    RegisteredSpec(n, EntryFn(body), exts);
  }

  lemma KeepSnoc(es: seq<Entry>, e: Entry, exts: map<nat, string>)
    ensures Keep(es + [e], exts) ==
      if e.hash in exts then Keep(es, exts) + [Info(e, exts[e.hash])] else Keep(es, exts)
  {
    assert (es + [e])[..|es|] == es;
  }

  /** What one archive holds for extraction, if it is a recognised archive. */
  datatype Parsed = Skipped | Listing(body: seq<uint8>, infos: seq<FileInfo>)

  /** The body: everything after the header, decrypted when the archive is encrypted. */
  function Body(data: seq<uint8>, kind: Kind, decrypt: seq<uint8> -> seq<uint8>): seq<uint8>
  {
    var rest := PySlice(data, HeaderSize, |data|);
    if kind == Encrypted then decrypt(rest) else rest
  }

  function ParseArchive(data: seq<uint8>, classify: nat -> Kind, decrypt: seq<uint8> -> seq<uint8>,
                        exts: map<nat, string>): Result<Parsed>
  {
    var header :- Header(data);
    var kind := classify(header.0);
    if kind == Unrecognised then Ok(Skipped)
    else
      var body := Body(data, kind, decrypt);
      var infos :- KnownEntries(body, header.1, exts);
      Ok(Listing(body, infos))
  }

  /** As the extractor is written, an archive with the plain magic is skipped, whatever it holds. */
  lemma ParseAsWrittenSkipsPlain(data: seq<uint8>, decrypt: seq<uint8> -> seq<uint8>, exts: map<nat, string>)
    requires Header(data).Ok? && Header(data).value.0 == PlainMagic
    ensures ParseArchive(data, ClassifyAsWritten, decrypt, exts) == Ok(Skipped)
    ensures ParseArchive(data, Classify, decrypt, exts).Ok? ==>
      ParseArchive(data, Classify, decrypt, exts).value.Listing?
  {
  }

  /** Any archive without the plain magic is read alike under both classifications. */
  lemma ParseClassificationsAgree(data: seq<uint8>, decrypt: seq<uint8> -> seq<uint8>, exts: map<nat, string>)
    requires Header(data).Ok? ==> Header(data).value.0 != PlainMagic
    ensures ParseArchive(data, ClassifyAsWritten, decrypt, exts) == ParseArchive(data, Classify, decrypt, exts)
  {
    if Header(data).Ok? {
      ClassifyAsWrittenSkipsPlain(Header(data).value.0);
    }
  }

  /**
    Entry offsets count from the start of the file; subtracting the 8 header
    bytes makes them count from the start of the body. For a plain archive
    the compressed bytes read from the body are those at the stored offset
    of the file.
  */
  lemma OffsetCountsFromFileStart(data: seq<uint8>, stored: nat, csize: nat)
    requires |data| >= HeaderSize && stored >= HeaderSize
    ensures var body := Body(data, Plain, x => x);
      PySlice(body, stored - HeaderSize, stored - HeaderSize + csize) ==
      PySlice(data, stored, stored + csize)
  {
    var body := Body(data, Plain, x => x);
    assert body == data[HeaderSize..];
    var lo := stored - HeaderSize;
    if stored + csize <= |data| {
      PySliceFrom(body, lo, csize);
      PySliceFrom(data, stored, csize);
      assert body[lo..lo + csize] == data[stored..stored + csize];
    } else if stored <= |data| {
      assert PySlice(body, lo, lo + csize) == body[lo..];
      assert PySlice(data, stored, stored + csize) == data[stored..];
    }
  }

  // ---------------------------------------------------------------------------
  // The extraction directory and the manifest

  type Files = map<string, seq<uint8>>

  /** The manifest built so far and the contents of the extraction directory. */
  datatype State = State(manifest: set<string>, files: Files)

  function Key(info: FileInfo): string
  {
    info.path + info.ext
  }

  /**
    One registered entry: list it; if its output file is absent, inflate its
    compressed bytes and write them. An existing file is left as it is and
    its bytes are never inflated.
  */
  function ExtractFile(body: seq<uint8>, info: FileInfo, env: Environment, st: State): Result<State>
  {
    var key := Key(info);
    var listed := st.(manifest := st.manifest + {Slashes(key)});
    if key in st.files then Ok(listed)
    else
      match env.inflate(PySlice(body, info.offset, info.offset + info.csize))
      case None => Err(InflateFailed)
      case Some(bytes) => Ok(listed.(files := st.files[key := bytes]))
  }

  function ExtractFiles(body: seq<uint8>, infos: seq<FileInfo>, env: Environment, st: State): Result<State>
  {
    if infos == [] then Ok(st)
    else
      var s :- ExtractFiles(body, infos[..|infos| - 1], env, st);
      ExtractFile(body, infos[|infos| - 1], env, s)
  }

  lemma {:induction false} ExtractFilesSticky(body: seq<uint8>, infos: seq<FileInfo>, k: nat, env: Environment, st: State)
    requires k <= |infos| && ExtractFiles(body, infos[..k], env, st).Err?
    ensures ExtractFiles(body, infos, env, st) == ExtractFiles(body, infos[..k], env, st)
    decreases |infos|
  {
    if k < |infos| {
      var init := infos[..|infos| - 1];
      assert init[..k] == infos[..k];
      ExtractFilesSticky(body, init, k, env, st);
    } else {
      assert infos[..k] == infos;
    }
  }

  function ExtractArchive(data: seq<uint8>, env: Environment, exts: map<nat, string>, st: State): Result<State>
  {
    var parsed :- ParseArchive(data, env.classify, env.decrypt, exts);
    if parsed.Skipped? then Ok(st) else ExtractFiles(parsed.body, parsed.infos, env, st)
  }

  function ExtractArchives(archives: seq<seq<uint8>>, env: Environment, exts: map<nat, string>, st: State): Result<State>
  {
    if archives == [] then Ok(st)
    else
      var s :- ExtractArchives(archives[..|archives| - 1], env, exts, st);
      ExtractArchive(archives[|archives| - 1], env, exts, s)
  }

  lemma {:induction false} ExtractArchivesSticky(archives: seq<seq<uint8>>, k: nat, env: Environment, exts: map<nat, string>, st: State)
    requires k <= |archives| && ExtractArchives(archives[..k], env, exts, st).Err?
    ensures ExtractArchives(archives, env, exts, st) == ExtractArchives(archives[..k], env, exts, st)
    decreases |archives|
  {
    if k < |archives| {
      var init := archives[..|archives| - 1];
      assert init[..k] == archives[..k];
      ExtractArchivesSticky(init, k, env, exts, st);
    } else {
      assert archives[..k] == archives;
    }
  }

  lemma ExtractArchiveAgrees(data: seq<uint8>, env: Environment, exts: map<nat, string>, st: State)
    requires Header(data).Ok? ==> Header(data).value.0 != PlainMagic
    ensures ExtractArchive(data, env.(classify := ClassifyAsWritten), exts, st) ==
            ExtractArchive(data, env.(classify := Classify), exts, st)
  {
    var written, intended := env.(classify := ClassifyAsWritten), env.(classify := Classify);
    ParseClassificationsAgree(data, env.decrypt, exts);
    var p := ParseArchive(data, Classify, env.decrypt, exts);
    if p.Ok? && p.value.Listing? {
      ExtractFilesInflateOnly(p.value.body, p.value.infos, written, intended, st);
    }
  }

  /** Writing the entries depends on the environment only through the decompressor. */
  lemma {:induction false} ExtractFilesInflateOnly(body: seq<uint8>, infos: seq<FileInfo>, e1: Environment,
                                                   e2: Environment, st: State)
    requires e1.inflate == e2.inflate
    ensures ExtractFiles(body, infos, e1, st) == ExtractFiles(body, infos, e2, st)
  {
    if infos != [] {
      ExtractFilesInflateOnly(body, infos[..|infos| - 1], e1, e2, st);
    }
  }

  /** No archive of the run starts with the plain magic. */
  predicate NoPlain(archives: seq<seq<uint8>>)
  {
    forall j :: 0 <= j < |archives| && Header(archives[j]).Ok? ==> Header(archives[j]).value.0 != PlainMagic
  }

  /**
    The two classifications extract alike when no archive is plain: the
    correction changes the run only through plain archives.
  */
  lemma {:induction false} ExtractClassificationsAgree(archives: seq<seq<uint8>>, env: Environment,
                                                       exts: map<nat, string>, st: State)
    requires NoPlain(archives)
    ensures ExtractArchives(archives, env.(classify := ClassifyAsWritten), exts, st) ==
            ExtractArchives(archives, env.(classify := Classify), exts, st)
  {
    if archives != [] {
      var init := archives[..|archives| - 1];
      var data := archives[|archives| - 1];
      assert NoPlain(init) by {
        forall j | 0 <= j < |init| && Header(init[j]).Ok?
          ensures Header(init[j]).value.0 != PlainMagic
        {
          assert init[j] == archives[j];
        }
      }
      ExtractClassificationsAgree(init, env, exts, st);
      var s := ExtractArchives(init, env.(classify := ClassifyAsWritten), exts, st);
      if s.Ok? {
        ExtractArchiveAgrees(data, env, exts, s.value);
      }
    }
  }

  /** A whole run is the same under both classifications when no archive is plain. */
  lemma RunClassificationsAgree(archives: seq<seq<uint8>>, loose: seq<LooseFile>, separate: bool,
                                env: Environment, exts: map<nat, string>, files: Files)
    requires NoPlain(archives)
    ensures Run(archives, loose, separate, env.(classify := ClassifyAsWritten), exts, files) ==
            Run(archives, loose, separate, env.(classify := Classify), exts, files)
  {
    ExtractClassificationsAgree(archives, env, exts, State({}, files));
  }

  // ---------------------------------------------------------------------------
  // Loose files of a separate installation

  /** A file of the installation, as the recursive glob lists it, with its contents. */
  datatype LooseFile = LooseFile(path: string, contents: seq<uint8>)

  /** `s.split(".")[-1]`: what follows the last dot, or all of `s`. */
  function LastPart(s: string): (r: string)
    ensures |r| <= |s| && r == s[|s| - |r|..]
    ensures '.' !in r
    ensures |r| < |s| ==> s[|s| - |r| - 1] == '.'
  {
    if s == [] then []
    else if s[|s| - 1] == '.' then []
    else LastPart(s[..|s| - 1]) + [s[|s| - 1]]
  }

  predicate OccursAt(s: string, p: string, j: int)
  {
    0 <= j && j + |p| <= |s| && s[j..j + |p|] == p
  }

  /** `s.find(p)`: the first index where `p` occurs, or -1. */
  function Find(s: string, p: string): (r: int)
    ensures -1 <= r <= |s|
    ensures r >= 0 ==> OccursAt(s, p, r)
    ensures r >= 0 ==> forall j :: 0 <= j < r ==> !OccursAt(s, p, j)
    ensures r == -1 ==> forall j :: !OccursAt(s, p, j)
  {
    FindFrom(s, p, 0)
  }

  function FindFrom(s: string, p: string, k: nat): (r: int)
    requires k <= |s|
    ensures -1 <= r <= |s|
    ensures r >= 0 ==> k <= r && OccursAt(s, p, r)
    ensures r >= 0 ==> forall j :: k <= j < r ==> !OccursAt(s, p, j)
    ensures r == -1 ==> forall j :: k <= j ==> !OccursAt(s, p, j)
    decreases |s| - k
  {
    if k + |p| > |s| then -1
    else if OccursAt(s, p, k) then k
    else if k == |s| then -1
    else FindFrom(s, p, k + 1)
  }

  /** A loose file is copied when its last extension is registered and is not "arc". */
  predicate Qualifies(path: string, exts: map<nat, string>)
  {
    "." + LastPart(path) in exts.Values && LastPart(path) != "arc"
  }

  /** The path of a loose file relative to the native root, as the extractor slices it. */
  function Relative(path: string): string
  {
    PySlice(path, Find(path, NativeRoot) + |NativeRoot| + 1, |path|)
  }

  function CopyLoose(f: LooseFile, st: State): State
  {
    var rel := Relative(f.path);
    var listed := st.(manifest := st.manifest + {Slashes(rel)});
    if rel in st.files then listed else listed.(files := st.files[rel := f.contents])
  }

  function Qualifying(loose: seq<LooseFile>, exts: map<nat, string>): (r: seq<LooseFile>)
    ensures forall f :: f in r <==> f in loose && Qualifies(f.path, exts)
  {
    if loose == [] then []
    else
      var init := loose[..|loose| - 1];
      var prev := Qualifying(init, exts);
      var f := loose[|loose| - 1];
      LastSplit(loose);
      if Qualifies(f.path, exts) then prev + [f] else prev
  }

  function CopyAll(files: seq<LooseFile>, st: State): State
  {
    if files == [] then st else CopyLoose(files[|files| - 1], CopyAll(files[..|files| - 1], st))
  }

  // ---------------------------------------------------------------------------
  // The whole run

  /**
    Every archive in turn, then, for an installation separate from the
    extraction directory, its qualifying loose files. Any failure ends the
    whole run.
  */
  function Run(archives: seq<seq<uint8>>, loose: seq<LooseFile>, separate: bool,
               env: Environment, exts: map<nat, string>, files: Files): Result<State>
  {
    var st :- ExtractArchives(archives, env, exts, State({}, files));
    if separate then Ok(CopyAll(Qualifying(loose, exts), st)) else Ok(st)
  }

  // ---------------------------------------------------------------------------
  // What a run promises

  /** Files already in the directory keep their contents. */
  predicate Preserves(before: Files, after: Files)
  {
    forall k :: k in before ==> k in after && after[k] == before[k]
  }

  /** Every manifest line names a file of the directory, with backslashes turned into slashes. */
  predicate Backed(st: State)
  {
    forall m :: m in st.manifest ==> exists k :: k in st.files && Slashes(k) == m
  }

  /** The manifest lines the entries `infos` contribute. */
  function Listed(infos: seq<FileInfo>): set<string>
  {
    if infos == [] then {} else Listed(infos[..|infos| - 1]) + {Slashes(Key(infos[|infos| - 1]))}
  }

  predicate AllPresent(infos: seq<FileInfo>, files: Files)
  {
    forall i :: 0 <= i < |infos| ==> Key(infos[i]) in files
  }

  lemma PresentStaysPresent(infos: seq<FileInfo>, f1: Files, f2: Files)
    requires AllPresent(infos, f1) && Preserves(f1, f2)
    ensures AllPresent(infos, f2)
  {
  }

  /**
    Extracting the entries of one archive lists every one of them, leaves
    each output file present, never changes a file that was already there,
    and keeps the manifest backed by the directory.
  */
  lemma {:induction false} ExtractFilesEffect(body: seq<uint8>, infos: seq<FileInfo>, env: Environment, st: State)
    requires ExtractFiles(body, infos, env, st).Ok?
    ensures var r := ExtractFiles(body, infos, env, st).value;
      r.manifest == st.manifest + Listed(infos) &&
      AllPresent(infos, r.files) &&
      Preserves(st.files, r.files) &&
      (Backed(st) ==> Backed(r))
  {
    if infos != [] {
      var init := infos[..|infos| - 1];
      var info := infos[|infos| - 1];
      ExtractFilesEffect(body, init, env, st);
      var s := ExtractFiles(body, init, env, st).value;
      var r := ExtractFiles(body, infos, env, st).value;
      assert r == ExtractFile(body, info, env, s).value;
      assert Preserves(s.files, r.files);
      forall i | 0 <= i < |infos|
        ensures Key(infos[i]) in r.files
      {
        if i < |init| {
          assert infos[i] == init[i];
        }
      }
      if Backed(st) {
        forall m | m in r.manifest
          ensures exists k :: k in r.files && Slashes(k) == m
        {
          if m in s.manifest {
            var k :| k in s.files && Slashes(k) == m;
            assert k in r.files;
          } else {
            assert Key(info) in r.files;
          }
        }
      }
    }
  }

  /**
    When every output file of the entries is already present, extracting
    them only lists them: the directory does not change and nothing is
    inflated, whatever the decompressor does.
  */
  lemma {:induction false} ExtractFilesWhenPresent(body: seq<uint8>, infos: seq<FileInfo>, env: Environment, st: State)
    requires AllPresent(infos, st.files)
    ensures ExtractFiles(body, infos, env, st) == Ok(State(st.manifest + Listed(infos), st.files))
  {
    if infos != [] {
      var init := infos[..|infos| - 1];
      assert AllPresent(init, st.files) by {
        forall i | 0 <= i < |init|
          ensures Key(init[i]) in st.files
        {
          assert init[i] == infos[i];
        }
      }
      ExtractFilesWhenPresent(body, init, env, st);
      var info := infos[|infos| - 1];
      assert Key(info) in st.files;
      var s := State(st.manifest + Listed(init), st.files);
      assert ExtractFiles(body, infos, env, st) == ExtractFile(body, info, env, s);
      assert ExtractFile(body, info, env, s) == Ok(State(s.manifest + {Slashes(Key(info))}, st.files));
      assert Listed(infos) == Listed(init) + {Slashes(Key(info))};
      assert s.manifest + {Slashes(Key(info))} == st.manifest + Listed(infos);
    } else {
      assert st.manifest + Listed(infos) == st.manifest;
    }
  }

  /** The manifest lines one archive contributes. */
  function ArchiveListed(data: seq<uint8>, classify: nat -> Kind, decrypt: seq<uint8> -> seq<uint8>,
                         exts: map<nat, string>): set<string>
  {
    match ParseArchive(data, classify, decrypt, exts)
    case Ok(Listing(_, infos)) => Listed(infos)
    case _ => {}
  }

  function ArchivesListed(archives: seq<seq<uint8>>, classify: nat -> Kind, decrypt: seq<uint8> -> seq<uint8>,
                          exts: map<nat, string>): set<string>
  {
    if archives == [] then {}
    else ArchivesListed(archives[..|archives| - 1], classify, decrypt, exts) +
         ArchiveListed(archives[|archives| - 1], classify, decrypt, exts)
  }

  /** The archive can be read and every file it would extract is present. */
  predicate ArchivePresent(data: seq<uint8>, classify: nat -> Kind, decrypt: seq<uint8> -> seq<uint8>,
                           exts: map<nat, string>, files: Files)
  {
    var p := ParseArchive(data, classify, decrypt, exts);
    p.Ok? && (p.value.Listing? ==> AllPresent(p.value.infos, files))
  }

  predicate ArchivesPresent(archives: seq<seq<uint8>>, classify: nat -> Kind, decrypt: seq<uint8> -> seq<uint8>,
                            exts: map<nat, string>, files: Files)
  {
    forall j :: 0 <= j < |archives| ==> ArchivePresent(archives[j], classify, decrypt, exts, files)
  }

  lemma ExtractArchiveEffect(data: seq<uint8>, env: Environment, exts: map<nat, string>, st: State)
    requires ExtractArchive(data, env, exts, st).Ok?
    ensures var r := ExtractArchive(data, env, exts, st).value;
      r.manifest == st.manifest + ArchiveListed(data, env.classify, env.decrypt, exts) &&
      ArchivePresent(data, env.classify, env.decrypt, exts, r.files) &&
      Preserves(st.files, r.files) &&
      (Backed(st) ==> Backed(r))
  {
    var p := ParseArchive(data, env.classify, env.decrypt, exts).value;
    if p.Listing? {
      ExtractFilesEffect(p.body, p.infos, env, st);
    } else {
      assert st.manifest + ArchiveListed(data, env.classify, env.decrypt, exts) == st.manifest;
    }
  }

  lemma ArchivePresentStays(data: seq<uint8>, classify: nat -> Kind, decrypt: seq<uint8> -> seq<uint8>,
                            exts: map<nat, string>, f1: Files, f2: Files)
    requires ArchivePresent(data, classify, decrypt, exts, f1) && Preserves(f1, f2)
    ensures ArchivePresent(data, classify, decrypt, exts, f2)
  {
    var p := ParseArchive(data, classify, decrypt, exts).value;
    if p.Listing? {
      PresentStaysPresent(p.infos, f1, f2);
    }
  }

  lemma ArchivesPresentSnoc(archives: seq<seq<uint8>>, classify: nat -> Kind, decrypt: seq<uint8> -> seq<uint8>,
                            exts: map<nat, string>, f1: Files, f2: Files)
    requires archives != []
    requires ArchivesPresent(archives[..|archives| - 1], classify, decrypt, exts, f1) && Preserves(f1, f2)
    requires ArchivePresent(archives[|archives| - 1], classify, decrypt, exts, f2)
    ensures ArchivesPresent(archives, classify, decrypt, exts, f2)
  {
    var init := archives[..|archives| - 1];
    forall j | 0 <= j < |archives|
      ensures ArchivePresent(archives[j], classify, decrypt, exts, f2)
    {
      if j < |init| {
        assert archives[j] == init[j];
        ArchivePresentStays(init[j], classify, decrypt, exts, f1, f2);
      }
    }
  }

  lemma {:induction false} ExtractArchivesEffect(archives: seq<seq<uint8>>, env: Environment, exts: map<nat, string>, st: State)
    requires ExtractArchives(archives, env, exts, st).Ok?
    ensures var r := ExtractArchives(archives, env, exts, st).value;
      r.manifest == st.manifest + ArchivesListed(archives, env.classify, env.decrypt, exts) &&
      ArchivesPresent(archives, env.classify, env.decrypt, exts, r.files) &&
      Preserves(st.files, r.files) &&
      (Backed(st) ==> Backed(r))
  {
    if archives == [] {
      assert st.manifest + ArchivesListed(archives, env.classify, env.decrypt, exts) == st.manifest;
    } else {
      var init := archives[..|archives| - 1];
      var data := archives[|archives| - 1];
      ExtractArchivesEffect(init, env, exts, st);
      var s := ExtractArchives(init, env, exts, st).value;
      var r := ExtractArchives(archives, env, exts, st).value;
      assert r == ExtractArchive(data, env, exts, s).value;
      ExtractArchiveEffect(data, env, exts, s);
      ArchivesPresentSnoc(archives, env.classify, env.decrypt, exts, s.files, r.files);
    }
  }

  lemma ExtractArchiveWhenPresent(data: seq<uint8>, env: Environment, exts: map<nat, string>, st: State)
    requires ArchivePresent(data, env.classify, env.decrypt, exts, st.files)
    ensures ExtractArchive(data, env, exts, st) ==
      Ok(State(st.manifest + ArchiveListed(data, env.classify, env.decrypt, exts), st.files))
  {
    var p := ParseArchive(data, env.classify, env.decrypt, exts).value;
    if p.Listing? {
      ExtractFilesWhenPresent(p.body, p.infos, env, st);
    } else {
      assert st.manifest + ArchiveListed(data, env.classify, env.decrypt, exts) == st.manifest;
    }
  }

  lemma {:induction false} ExtractArchivesWhenPresent(archives: seq<seq<uint8>>, env: Environment, exts: map<nat, string>, st: State)
    requires ArchivesPresent(archives, env.classify, env.decrypt, exts, st.files)
    ensures ExtractArchives(archives, env, exts, st) ==
      Ok(State(st.manifest + ArchivesListed(archives, env.classify, env.decrypt, exts), st.files))
  {
    if archives == [] {
      assert st.manifest + ArchivesListed(archives, env.classify, env.decrypt, exts) == st.manifest;
    } else {
      var init := archives[..|archives| - 1];
      var data := archives[|archives| - 1];
      assert ArchivesPresent(init, env.classify, env.decrypt, exts, st.files) by {
        forall j | 0 <= j < |init|
          ensures ArchivePresent(init[j], env.classify, env.decrypt, exts, st.files)
        {
          assert init[j] == archives[j];
        }
      }
      ExtractArchivesWhenPresent(init, env, exts, st);
      var s := State(st.manifest + ArchivesListed(init, env.classify, env.decrypt, exts), st.files);
      assert ExtractArchives(archives, env, exts, st) == ExtractArchive(data, env, exts, s);
      ExtractArchiveWhenPresent(data, env, exts, s);
      assert s.manifest + ArchiveListed(data, env.classify, env.decrypt, exts) ==
             st.manifest + ArchivesListed(archives, env.classify, env.decrypt, exts);
    }
  }

  /** The manifest lines the loose files `fs` contribute. */
  function LooseListed(fs: seq<LooseFile>): set<string>
  {
    if fs == [] then {} else LooseListed(fs[..|fs| - 1]) + {Slashes(Relative(fs[|fs| - 1].path))}
  }

  predicate LoosePresent(fs: seq<LooseFile>, files: Files)
  {
    forall i :: 0 <= i < |fs| ==> Relative(fs[i].path) in files
  }

  lemma CopyLooseEffect(f: LooseFile, st: State)
    ensures var r := CopyLoose(f, st);
      r.manifest == st.manifest + {Slashes(Relative(f.path))} &&
      Relative(f.path) in r.files &&
      Preserves(st.files, r.files) &&
      (Backed(st) ==> Backed(r))
  {
    var r := CopyLoose(f, st);
    if Backed(st) {
      forall m | m in r.manifest
        ensures exists k :: k in r.files && Slashes(k) == m
      {
        if m in st.manifest {
          var k :| k in st.files && Slashes(k) == m;
          assert k in r.files;
        } else {
          assert Relative(f.path) in r.files;
        }
      }
    }
  }

  lemma {:induction false} CopyAllEffect(fs: seq<LooseFile>, st: State)
    ensures var r := CopyAll(fs, st);
      r.manifest == st.manifest + LooseListed(fs) &&
      LoosePresent(fs, r.files) &&
      Preserves(st.files, r.files) &&
      (Backed(st) ==> Backed(r))
  {
    if fs == [] {
      assert st.manifest + LooseListed(fs) == st.manifest;
    } else {
      var init := fs[..|fs| - 1];
      var f := fs[|fs| - 1];
      CopyAllEffect(init, st);
      var s := CopyAll(init, st);
      var r := CopyAll(fs, st);
      assert r == CopyLoose(f, s);
      CopyLooseEffect(f, s);
      forall i | 0 <= i < |fs|
        ensures Relative(fs[i].path) in r.files
      {
        if i < |init| {
          assert fs[i] == init[i];
        }
      }
    }
  }

  lemma {:induction false} CopyAllWhenPresent(fs: seq<LooseFile>, st: State)
    requires LoosePresent(fs, st.files)
    ensures CopyAll(fs, st) == State(st.manifest + LooseListed(fs), st.files)
  {
    if fs != [] {
      var init := fs[..|fs| - 1];
      assert LoosePresent(init, st.files) by {
        forall i | 0 <= i < |init|
          ensures Relative(init[i].path) in st.files
        {
          assert init[i] == fs[i];
        }
      }
      CopyAllWhenPresent(init, st);
      var f := fs[|fs| - 1];
      assert Relative(f.path) in st.files;
      assert st.manifest + LooseListed(init) + {Slashes(Relative(f.path))} == st.manifest + LooseListed(fs);
    }
  }

  /**
    A successful run never changes a file that was already in the extraction
    directory (other than the manifest file itself, which is not modelled),
    and every line of its manifest names a file of the directory.
  */
  lemma RunKeepsAndBacks(archives: seq<seq<uint8>>, loose: seq<LooseFile>, separate: bool,
                         env: Environment, exts: map<nat, string>, files: Files)
    requires Run(archives, loose, separate, env, exts, files).Ok?
    ensures var r := Run(archives, loose, separate, env, exts, files).value;
      Preserves(files, r.files) && Backed(r)
  {
    var st0 := State({}, files);
    ExtractArchivesEffect(archives, env, exts, st0);
    var st := ExtractArchives(archives, env, exts, st0).value;
    if separate {
      CopyAllEffect(Qualifying(loose, exts), st);
    }
  }

  predicate EndsWith(s: string, suffix: string)
  {
    |suffix| <= |s| && s[|s| - |suffix|..] == suffix
  }

  /** The run added no file that the recursive `*.arc` glob would list. */
  predicate NoNewArchives(before: Files, after: Files)
  {
    forall k :: k in after && k !in before ==> !EndsWith(k, ".arc")
  }

  /**
    Running the extraction a second time over the directory the first run
    produced changes nothing and lists the same manifest, with any
    decompressor: every output already exists, so nothing is inflated.
    The second run reads the same archives when the installation is
    separate; otherwise its glob runs over the extraction directory, so the
    first run must not have written new `.arc` files.
  */
  lemma RunIdempotent(archives: seq<seq<uint8>>, loose: seq<LooseFile>, separate: bool,
                      env: Environment, again: Environment, exts: map<nat, string>, files: Files)
    requires again.classify == env.classify && again.decrypt == env.decrypt
    requires Run(archives, loose, separate, env, exts, files).Ok?
    requires separate || NoNewArchives(files, Run(archives, loose, separate, env, exts, files).value.files)
    ensures var r := Run(archives, loose, separate, env, exts, files).value;
      Run(archives, loose, separate, again, exts, r.files) == Ok(r)
  {
    var st0 := State({}, files);
    ExtractArchivesEffect(archives, env, exts, st0);
    var st := ExtractArchives(archives, env, exts, st0).value;
    var r := Run(archives, loose, separate, env, exts, files).value;
    var q := Qualifying(loose, exts);
    if separate {
      CopyAllEffect(q, st);
      forall j | 0 <= j < |archives|
        ensures ArchivePresent(archives[j], env.classify, env.decrypt, exts, r.files)
      {
        var p := ParseArchive(archives[j], env.classify, env.decrypt, exts).value;
        if p.Listing? {
          PresentStaysPresent(p.infos, st.files, r.files);
        }
      }
    }
    ExtractArchivesWhenPresent(archives, again, exts, State({}, r.files));
    if separate {
      var st2 := State({} + ArchivesListed(archives, env.classify, env.decrypt, exts), r.files);
      CopyAllWhenPresent(q, st2);
    }
  }

  // ---------------------------------------------------------------------------
  // What a failed run leaves behind

  /**
    The state a run has reached and the error that stopped it, if one did.
    Each file is written as soon as it is inflated, and a later failure
    does not undo those writes; the manifest file is then never written.
  */
  datatype Outcome = Outcome(st: State, error: Option<Error>)

  /** One more step from `st`: its new state, or `st` kept with the error. */
  function Reached(r: Result<State>, st: State): Outcome
  {
    match r
    case Ok(s) => Outcome(s, None)
    case Err(e) => Outcome(st, Some(e))
  }

  /** `ExtractFiles`, keeping the state reached when an entry fails to inflate. */
  function ExtractFilesReach(body: seq<uint8>, infos: seq<FileInfo>, env: Environment, st: State): Outcome
  {
    if infos == [] then Outcome(st, None)
    else
      var o := ExtractFilesReach(body, infos[..|infos| - 1], env, st);
      if o.error.Some? then o else Reached(ExtractFile(body, infos[|infos| - 1], env, o.st), o.st)
  }

  /** `ExtractArchive`, keeping the state reached on a failure. */
  function ExtractArchiveReach(data: seq<uint8>, env: Environment, exts: map<nat, string>, st: State): Outcome
  {
    match ParseArchive(data, env.classify, env.decrypt, exts)
    case Err(e) => Outcome(st, Some(e))
    case Ok(parsed) => if parsed.Skipped? then Outcome(st, None) else ExtractFilesReach(parsed.body, parsed.infos, env, st)
  }

  function ExtractArchivesReach(archives: seq<seq<uint8>>, env: Environment, exts: map<nat, string>, st: State): Outcome
  {
    if archives == [] then Outcome(st, None)
    else
      var o := ExtractArchivesReach(archives[..|archives| - 1], env, exts, st);
      if o.error.Some? then o else ExtractArchiveReach(archives[|archives| - 1], env, exts, o.st)
  }

  /** `Run`, keeping the directory a failed archive leaves behind; copying loose files never fails. */
  function RunReach(archives: seq<seq<uint8>>, loose: seq<LooseFile>, separate: bool,
                    env: Environment, exts: map<nat, string>, files: Files): Outcome
  {
    var o := ExtractArchivesReach(archives, env, exts, State({}, files));
    if o.error.None? && separate then Outcome(CopyAll(Qualifying(loose, exts), o.st), None) else o
  }

  /** Once an entry has failed, the later entries change nothing. */
  lemma {:induction false} ExtractFilesReachSticky(body: seq<uint8>, infos: seq<FileInfo>, k: nat, env: Environment, st: State)
    requires k <= |infos| && ExtractFilesReach(body, infos[..k], env, st).error.Some?
    ensures ExtractFilesReach(body, infos, env, st) == ExtractFilesReach(body, infos[..k], env, st)
    decreases |infos|
  {
    if k < |infos| {
      var init := infos[..|infos| - 1];
      assert init[..k] == infos[..k];
      ExtractFilesReachSticky(body, init, k, env, st);
    } else {
      assert infos[..k] == infos;
    }
  }

  /** Once an archive has failed, the later archives change nothing. */
  lemma {:induction false} ExtractArchivesReachSticky(archives: seq<seq<uint8>>, k: nat, env: Environment,
                                                      exts: map<nat, string>, st: State)
    requires k <= |archives| && ExtractArchivesReach(archives[..k], env, exts, st).error.Some?
    ensures ExtractArchivesReach(archives, env, exts, st) == ExtractArchivesReach(archives[..k], env, exts, st)
    decreases |archives|
  {
    if k < |archives| {
      var init := archives[..|archives| - 1];
      assert init[..k] == archives[..k];
      ExtractArchivesReachSticky(init, k, env, exts, st);
    } else {
      assert archives[..k] == archives;
    }
  }

  /** The outcome fails exactly when the result does, with its error, and otherwise holds its state. */
  predicate Agrees(o: Outcome, r: Result<State>)
  {
    (o.error.None? <==> r.Ok?) &&
    (r.Ok? ==> o.st == r.value) &&
    (r.Err? ==> o.error == Some(r.error))
  }

  lemma {:induction false} ExtractFilesReachAgrees(body: seq<uint8>, infos: seq<FileInfo>, env: Environment, st: State)
    ensures Agrees(ExtractFilesReach(body, infos, env, st), ExtractFiles(body, infos, env, st))
  {
    if infos != [] {
      ExtractFilesReachAgrees(body, infos[..|infos| - 1], env, st);
    }
  }

  lemma ExtractArchiveReachAgrees(data: seq<uint8>, env: Environment, exts: map<nat, string>, st: State)
    ensures Agrees(ExtractArchiveReach(data, env, exts, st), ExtractArchive(data, env, exts, st))
  {
    var p := ParseArchive(data, env.classify, env.decrypt, exts);
    if p.Ok? && p.value.Listing? {
      ExtractFilesReachAgrees(p.value.body, p.value.infos, env, st);
    }
  }

  lemma {:induction false} ExtractArchivesReachAgrees(archives: seq<seq<uint8>>, env: Environment, exts: map<nat, string>, st: State)
    ensures Agrees(ExtractArchivesReach(archives, env, exts, st), ExtractArchives(archives, env, exts, st))
  {
    if archives != [] {
      var init := archives[..|archives| - 1];
      ExtractArchivesReachAgrees(init, env, exts, st);
      var o := ExtractArchivesReach(init, env, exts, st);
      if o.error.None? {
        ExtractArchiveReachAgrees(archives[|archives| - 1], env, exts, o.st);
      }
    }
  }

  /** The outcome of a run agrees with the run: the same error, or the same final state. */
  lemma RunReachAgrees(archives: seq<seq<uint8>>, loose: seq<LooseFile>, separate: bool,
                       env: Environment, exts: map<nat, string>, files: Files)
    ensures Agrees(RunReach(archives, loose, separate, env, exts, files), Run(archives, loose, separate, env, exts, files))
  {
    ExtractArchivesReachAgrees(archives, env, exts, State({}, files));
  }

  /** The output files the entries `infos` name. */
  function Outputs(infos: seq<FileInfo>): set<string>
  {
    if infos == [] then {} else Outputs(infos[..|infos| - 1]) + {Key(infos[|infos| - 1])}
  }

  /** Every file of `after` that `before` lacks is one of `keys`. */
  predicate OnlyAdds(before: Files, after: Files, keys: set<string>)
  {
    forall k :: k in after && k !in before ==> k in keys
  }

  /**
    Whether or not an entry fails, the files already there keep their
    contents, and every file written is the output of one of the entries.
  */
  lemma {:induction false} ExtractFilesReachKeeps(body: seq<uint8>, infos: seq<FileInfo>, env: Environment, st: State)
    ensures var o := ExtractFilesReach(body, infos, env, st);
      Preserves(st.files, o.st.files) && OnlyAdds(st.files, o.st.files, Outputs(infos))
  {
    if infos != [] {
      var init := infos[..|infos| - 1];
      ExtractFilesReachKeeps(body, init, env, st);
    }
  }

  lemma {:induction false} ExtractArchivesReachKeeps(archives: seq<seq<uint8>>, env: Environment, exts: map<nat, string>, st: State)
    ensures Preserves(st.files, ExtractArchivesReach(archives, env, exts, st).st.files)
  {
    if archives != [] {
      var init := archives[..|archives| - 1];
      ExtractArchivesReachKeeps(init, env, exts, st);
      var o := ExtractArchivesReach(init, env, exts, st);
      if o.error.None? {
        var p := ParseArchive(archives[|archives| - 1], env.classify, env.decrypt, exts);
        if p.Ok? && p.value.Listing? {
          ExtractFilesReachKeeps(p.value.body, p.value.infos, env, o.st);
        }
      }
    }
  }

  /**
    A run that fails on an entry or an archive header still never changes a
    file that was in the extraction directory, although the files it wrote
    before the failure stay.
  */
  lemma RunReachKeeps(archives: seq<seq<uint8>>, loose: seq<LooseFile>, separate: bool,
                      env: Environment, exts: map<nat, string>, files: Files)
    ensures Preserves(files, RunReach(archives, loose, separate, env, exts, files).st.files)
  {
    var st0 := State({}, files);
    ExtractArchivesReachKeeps(archives, env, exts, st0);
    var o := ExtractArchivesReach(archives, env, exts, st0);
    if o.error.None? && separate {
      CopyAllEffect(Qualifying(loose, exts), o.st);
    }
  }
}
