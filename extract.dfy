/**
  The extractor itself: it walks each archive with a byte cursor, writes the
  files that are not there yet, copies loose files of a separate
  installation and sorts the manifest. Each method is proved to compute
  what the functions of `Arc` describe.
*/
module Extract {
  import opened Binary
  import opened Cursor
  import opened Registry
  import opened Manifest
  import opened Arc

  /** Reads entry `i` from a cursor standing at the start of its slot. */
  method ReadEntry(bs: Reader, ghost i: nat) returns (r: Result<Entry>)
    requires bs.offset == EntrySize * i
    modifies bs
    ensures r == EntryAt(bs.data, i)
    ensures r.Ok? ==> bs.offset == EntrySize * (i + 1)
  {
    var start := bs.Tell();
    var name := bs.ReadString();
    if name.Err? {
      return Err(name.error);
    }
    bs.Seek(start + PathSlot);
    ghost var base: nat := start + PathSlot;
    BytesFrom(bs.data, base, 16);
    var hash := ReadRecordField(bs, 4, base, 16, 0);
    if hash.Err? {
      return Err(hash.error);
    }
    var csize := ReadRecordField(bs, 4, base, 16, 4);
    if csize.Err? {
      return Err(csize.error);
    }
    var dsize := ReadRecordField(bs, 4, base, 16, 8);
    if dsize.Err? {
      return Err(dsize.error);
    }
    var stored := ReadRecordField(bs, 4, base, 16, 12);
    if stored.Err? {
      return Err(stored.error);
    }
    r := Ok(Entry(Slashes(name.value), hash.value, csize.value, dsize.value, stored.value - HeaderSize));
  }

  /** Reads the header, classifies the archive with `classify` and lists its registered entries. */
  method ReadArchive(data: seq<uint8>, classify: nat -> Kind, decrypt: seq<uint8> -> seq<uint8>, exts: map<nat, string>)
    returns (r: Result<Parsed>)
    ensures r == ParseArchive(data, classify, decrypt, exts)
  {
    var arc := new Reader(data);
    var magic := arc.ReadUInt();
    if magic.Err? {
      return Err(magic.error);
    }
    var word := arc.ReadUShort();
    if word.Err? {
      return Err(word.error);
    }
    var count := arc.ReadUShort();
    if count.Err? {
      return Err(count.error);
    }
    var kind := classify(magic.value);
    if kind == Unrecognised {
      return Ok(Skipped);
    }
    var rest := PySlice(arc.data, arc.Tell(), |arc.data|);
    var body := if kind == Encrypted then decrypt(rest) else rest;
    assert body == Body(data, kind, decrypt);
    var bs := new Reader(body);
    var infos: seq<FileInfo> := [];
    for i := 0 to count.value
      invariant bs.data == body && bs.offset == EntrySize * i
      invariant KnownEntries(body, i, exts) == Ok(infos)
    {
      var e := ReadEntry(bs, i);
      if e.Err? {
        KnownEntriesSticky(body, i + 1, count.value, exts);
        return Err(e.error);
      }
      if e.value.hash in exts {
        infos := infos + [Info(e.value, exts[e.value.hash])];
      }
    }
    r := Ok(Listing(body, infos));
  }

  /**
    Lists and, where absent, writes every registered entry of one archive.
    `left` is the directory afterwards, also when an entry fails to inflate:
    the files written before it stay.
  */
  method ExtractListing(body: seq<uint8>, infos: seq<FileInfo>, env: Environment,
                        manifest: set<string>, files: Files)
    returns (r: Result<State>, left: Files)
    ensures r == ExtractFiles(body, infos, env, State(manifest, files))
    ensures left == ExtractFilesReach(body, infos, env, State(manifest, files)).st.files
  {
    var bs := new Reader(body);
    var m, fs := manifest, files;
    ghost var start := State(manifest, files);
    for k := 0 to |infos|
      invariant bs.data == body
      invariant ExtractFiles(body, infos[..k], env, start) == Ok(State(m, fs))
      invariant ExtractFilesReach(body, infos[..k], env, start) == Outcome(State(m, fs), None)
    {
      var info := infos[k];
      assert infos[..k + 1][..k] == infos[..k];
      var key := info.path + info.ext;
      ghost var before := State(m, fs);
      m := m + {Slashes(key)};
      if key !in fs {
        bs.Seek(info.offset);
        var compressed := bs.ReadBytes(info.csize);
        var out := env.inflate(compressed);
        if out.None? {
          assert ExtractFilesReach(body, infos[..k + 1], env, start) == Outcome(before, Some(InflateFailed));
          ExtractFilesSticky(body, infos, k + 1, env, start);
          ExtractFilesReachSticky(body, infos, k + 1, env, start);
          return Err(InflateFailed), fs;
        }
        fs := fs[key := out.value];
      }
    }
    assert infos[..|infos|] == infos;
    r, left := Ok(State(m, fs)), fs;
  }

  /** Keeps the loose files whose extension is registered, in glob order. */
  method SelectLoose(loose: seq<LooseFile>, exts: map<nat, string>) returns (others: seq<LooseFile>)
    ensures others == Qualifying(loose, exts)
  {
    others := [];
    for i := 0 to |loose|
      invariant others == Qualifying(loose[..i], exts)
    {
      assert loose[..i + 1][..i] == loose[..i];
      if Qualifies(loose[i].path, exts) {
        others := others + [loose[i]];
      }
    }
    assert loose[..|loose|] == loose;
  }

  /** Lists every loose file and copies those absent from the extraction directory. */
  method CopyLooseFiles(others: seq<LooseFile>, manifest: set<string>, files: Files) returns (st: State)
    ensures st == CopyAll(others, State(manifest, files))
  {
    var m, fs := manifest, files;
    for i := 0 to |others|
      invariant CopyAll(others[..i], State(manifest, files)) == State(m, fs)
    {
      assert others[..i + 1][..i] == others[..i];
      var rel := Relative(others[i].path);
      m := m + {Slashes(rel)};
      if rel !in fs {
        fs := fs[rel := others[i].contents];
      }
    }
    assert others[..|others|] == others;
    st := State(m, fs);
  }

  /**
    Extracts every archive in turn; the first failure ends the run, and
    `left` is the directory then, with every file written before it.
  */
  method ExtractAll(archives: seq<seq<uint8>>, env: Environment, exts: map<nat, string>, files: Files)
    returns (r: Result<State>, left: Files)
    ensures r == ExtractArchives(archives, env, exts, State({}, files))
    ensures left == ExtractArchivesReach(archives, env, exts, State({}, files)).st.files
  {
    var manifest: set<string> := {};
    var fs := files;
    var start := State({}, files);
    for a := 0 to |archives|
      invariant ExtractArchives(archives[..a], env, exts, start) == Ok(State(manifest, fs))
      invariant ExtractArchivesReach(archives[..a], env, exts, start) == Outcome(State(manifest, fs), None)
    {
      assert archives[..a + 1][..a] == archives[..a];
      var parsed := ReadArchive(archives[a], env.classify, env.decrypt, exts);
      if parsed.Err? {
        ExtractArchivesSticky(archives, a + 1, env, exts, start);
        ExtractArchivesReachSticky(archives, a + 1, env, exts, start);
        return Err(parsed.error), fs;
      }
      if parsed.value.Listing? {
        var st, written := ExtractListing(parsed.value.body, parsed.value.infos, env, manifest, fs);
        ExtractFilesReachAgrees(parsed.value.body, parsed.value.infos, env, State(manifest, fs));
        if st.Err? {
          ExtractArchivesSticky(archives, a + 1, env, exts, start);
          ExtractArchivesReachSticky(archives, a + 1, env, exts, start);
          return Err(st.error), written;
        }
        manifest, fs := st.value.manifest, st.value.files;
      }
    }
    assert archives[..|archives|] == archives;
    r, left := Ok(State(manifest, fs)), fs;
  }

  /**
    `bulk_extract_arc`: every archive, then the loose files of a separate
    installation; the result is the sorted manifest and the new directory.
    `left` is the directory the run leaves, also when it fails.
  */
  method BulkExtract(archives: seq<seq<uint8>>, loose: seq<LooseFile>, separate: bool,
                     env: Environment, files: Files)
    returns (r: Result<(seq<string>, Files)>, left: Files)
    ensures var run := Run(archives, loose, separate, env, FileExts(), files);
      (r.Ok? <==> run.Ok?) &&
      (r.Err? ==> r.error == run.error) &&
      (r.Ok? ==> StrictlySorted(r.value.0) && Elements(r.value.0) == run.value.manifest &&
                 r.value.1 == run.value.files)
    ensures left == RunReach(archives, loose, separate, env, FileExts(), files).st.files
    ensures r.Ok? ==> left == r.value.1
    ensures Preserves(files, left)
  {
    r, left := ExtractWith(archives, loose, separate, env, FileExts(), files);
  }

  /**
    The extraction with the registry `exts`. With `env.classify ==
    ClassifyAsWritten` it is the extractor as written, which skips every
    plain archive; with `Classify`, the corrected one. On a failure no
    manifest is produced, but `left` keeps the files written before it,
    and the files that were there before are never changed.
  */
  method ExtractWith(archives: seq<seq<uint8>>, loose: seq<LooseFile>, separate: bool,
                     env: Environment, exts: map<nat, string>, files: Files)
    returns (r: Result<(seq<string>, Files)>, left: Files)
    ensures var run := Run(archives, loose, separate, env, exts, files);
      (r.Ok? <==> run.Ok?) &&
      (r.Err? ==> r.error == run.error) &&
      (r.Ok? ==> StrictlySorted(r.value.0) && Elements(r.value.0) == run.value.manifest &&
                 r.value.1 == run.value.files)
    ensures left == RunReach(archives, loose, separate, env, exts, files).st.files
    ensures r.Ok? ==> left == r.value.1
    ensures Preserves(files, left)
  {
    RunReachKeeps(archives, loose, separate, env, exts, files);
    ExtractArchivesReachAgrees(archives, env, exts, State({}, files));
    var extracted, written := ExtractAll(archives, env, exts, files);
    if extracted.Err? {
      return Err(extracted.error), written;
    }
    var st := extracted.value;
    if separate {
      var others := SelectLoose(loose, exts);
      st := CopyLooseFiles(others, st.manifest, st.files);
    }
    var listing := SortedList(st.manifest);
    r, left := Ok((listing, st.files)), st.files;
    assert Run(archives, loose, separate, env, exts, files) == Ok(st);
  }
}
