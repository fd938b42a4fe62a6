/** Replacing a damaged packet index: the old database files are set aside, a new database
    takes their place, and any number of crashes and retries in between lose nothing. */
module IndexRecovery {

  /** The files of one database. */
  datatype Suffix = Main | Journal | Wal | SharedMemory

  datatype File = Index(suffix: Suffix) | Quarantine(suffix: Suffix) | Replacement(suffix: Suffix) | Marker

  type Content = seq<nat>

  type Files = map<File, Content>

  const SUFFIXES: seq<Suffix> := [Main, Journal, Wal, SharedMemory]

  datatype Outcome = Done | Refused | CutOff

  /** The files of the index, by suffix. */
  function Stored(files: Files): map<Suffix, Content> {
    map s: Suffix | s in {Main, Journal, Wal, SharedMemory} && Index(s) in files :: files[Index(s)]
  }

  predicate Quarantined(files: Files) {
    exists s: Suffix :: s in SUFFIXES && Quarantine(s) in files
  }

  /** Every original file is in quarantine, or still in its place with nothing in quarantine
      to make it look stale; the latter only while the marker keeps the index closed. */
  ghost predicate Kept(files: Files, originals: map<Suffix, Content>) {
    forall s :: s in originals ==>
      if Quarantine(s) in files then files[Quarantine(s)] == originals[s]
      else Marker in files && Index(s) in files && files[Index(s)] == originals[s]
  }

  /** What is in quarantine stays there unchanged. */
  ghost predicate Preserves(a: Files, b: Files) {
    forall s :: Quarantine(s) in a ==> Quarantine(s) in b && b[Quarantine(s)] == a[Quarantine(s)]
  }

  /** No file of the index or of its replacement is there. */
  ghost predicate Cleared(files: Files, suffixes: seq<Suffix>) {
    forall s :: s in suffixes ==> Index(s) !in files && Replacement(s) !in files
  }

  class Directory {
    var files: Files
    /** The index files as they were when the recovery in progress, or the last one, began. */
    ghost var originals: map<Suffix, Content>

    constructor (given: Files)
      requires Marker !in given
      ensures files == given && originals == map[]
    {
      files, originals := given, map[];
    }

    method Rename(a: File, b: File)
      requires a in files && a != b
      modifies this`files
      ensures files == old((files - {a})[b := files[a]])
    {
      files := (files - {a})[b := files[a]];
    }

    method Remove(a: File)
      modifies this`files
      ensures files == old(files) - {a}
    {
      files := files - {a};
    }

    /** Opens the index, which creates it if need be, and lets it write its own files; refused
        while a recovery is unfinished. */
    method Open() returns (ok: bool)
      requires Kept(files, originals)
      modifies this`files
      ensures ok <==> Marker !in old(files)
      ensures !ok ==> files == old(files)
      ensures Kept(files, originals)
      ensures forall f: File :: !f.Index? ==> (f in files <==> f in old(files)) && (f in files ==> files[f] == old(files[f]))
    {
      if Marker in files {
        return false;
      }
      var writes: nat :| true;
      for i := 0 to writes
        invariant Kept(files, originals) && Marker !in files
        invariant forall f: File :: !f.Index? ==> (f in files <==> f in old(files)) && (f in files ==> files[f] == old(files[f]))
      {
        var s: Suffix :| true;
        var c: Content :| true;
        var delete: bool := *;
        files := if delete then files - {Index(s)} else files[Index(s) := c];
      }
      return true;
    }

    /** Sets one file aside and clears what an earlier attempt left of its replacement. */
    method SetAside(s: Suffix) returns (cut: bool)
      requires Kept(files, originals) && Marker in files
      modifies this`files
      ensures Kept(files, originals) && Marker in files
      ensures !cut ==> Index(s) !in files && Replacement(s) !in files
      ensures forall r :: r != s ==>
        (Index(r) in files <==> Index(r) in old(files)) && (Replacement(r) in files <==> Replacement(r) in old(files))
      ensures forall f :: f in files && f != Quarantine(s) ==> f in old(files) && files[f] == old(files[f])
      ensures Preserves(old(files), files)
    {
      if Index(s) in files {
        if Quarantine(s) !in files {
          Rename(Index(s), Quarantine(s));
        } else {
          Remove(Index(s));
        }
      }
      cut := *;
      if cut {
        return;
      }
      Remove(Replacement(s));
      cut := *;
    }

    /** Creates the new database; cut off, it leaves any of its files behind. */
    method Create() returns (cut: bool)
      requires Kept(files, originals) && Marker in files && forall s :: Replacement(s) !in files
      modifies this`files
      ensures Kept(files, originals) && Marker in files
      ensures forall f: File :: !f.Replacement? ==> (f in files <==> f in old(files)) && (f in files ==> files[f] == old(files[f]))
      ensures !cut ==> Replacement(Main) in files && forall s :: s != Main ==> Replacement(s) !in files
    {
      cut := *;
      if cut {
        var writes: nat :| true;
        for i := 0 to writes
          invariant Kept(files, originals)
          invariant forall f: File :: !f.Replacement? ==> (f in files <==> f in old(files)) && (f in files ==> files[f] == old(files[f]))
        {
          var s: Suffix :| true;
          var c: Content :| true;
          files := files[Replacement(s) := c];
        }
        return;
      }
      var c: Content :| true;
      files := files[Replacement(Main) := c];
    }

    /** Sets all files aside, in order. */
    method SetAllAside() returns (cut: bool)
      requires Kept(files, originals) && Marker in files
      modifies this`files
      ensures Kept(files, originals) && Marker in files && Preserves(old(files), files)
      ensures !cut ==> Cleared(files, SUFFIXES)
    {
      for i := 0 to |SUFFIXES|
        invariant Kept(files, originals) && Marker in files && Preserves(old(files), files)
        invariant Cleared(files, SUFFIXES[..i])
      {
        assert SUFFIXES[..i + 1] == SUFFIXES[..i] + [SUFFIXES[i]];
        cut := SetAside(SUFFIXES[i]);
        if cut {
          return;
        }
      }
      cut := *;
    }

    /** Creates the new database, moves it into place and drops the marker. */
    method Publish() returns (cut: bool)
      requires Kept(files, originals) && Marker in files && Cleared(files, SUFFIXES)
      modifies this`files
      ensures Kept(files, originals) && Preserves(old(files), files)
      ensures cut ==> Marker in files
      ensures !cut ==> Marker !in files && Index(Main) in files
      ensures !cut ==> forall s :: s in originals ==> Quarantine(s) in files && files[Quarantine(s)] == originals[s]
    {
      AllSuffixes();
      cut := Create();
      if cut {
        return;
      }
      AllInQuarantine(files, originals);
      Rename(Replacement(Main), Index(Main));
      cut := *;
      if cut {
        return;
      }
      Remove(Marker);
    }

    /** One attempt at recovery; it may be cut off between any two file operations. */
    method Recover() returns (r: Outcome)
      requires Kept(files, originals) && (Marker !in files && !Quarantined(files) ==> originals == map[])
      modifies this
      ensures Kept(files, originals) && (Marker !in files && !Quarantined(files) ==> originals == map[])
      ensures Preserves(old(files), files)
      ensures r.Refused? <==> Marker !in old(files) && Quarantined(old(files))
      ensures r.Refused? ==> files == old(files) && originals == old(originals)
      ensures r.CutOff? ==> Marker in files || (files == old(files) && originals == old(originals))
      ensures r.Done? ==> Marker !in files && Index(Main) in files
      ensures r.Done? ==> forall s :: s in originals ==> Quarantine(s) in files && files[Quarantine(s)] == originals[s]
      ensures Marker in old(files) ==> originals == old(originals)
      ensures Marker !in old(files) && (r.Done? || Marker in files) ==> originals == old(Stored(files))
    {
      hide Kept, Preserves, Cleared;
      var cut: bool;
      Same(files);
      if Marker !in files {
        if Quarantined(files) {
          return Refused;
        }
        cut := *;
        if cut {
          return CutOff;
        }
        var intent: Content :| true;
        originals := Stored(files);
        Untouched(files, intent, originals);
        files := files[Marker := intent];
      }
      ghost var marked := files;
      cut := SetAllAside();
      Chain(old(files), marked, files);
      if cut {
        return CutOff;
      }
      ghost var cleared := files;
      cut := Publish();
      Chain(old(files), cleared, files);
      if cut {
        return CutOff;
      }
      if !Quarantined(files) {
        NoneKept(files, originals);
      }
      r := Done;
    }

    /** Any number of openings and attempts. Throughout, every original file is kept, and what
        is in quarantine stays there unchanged. */
    method Lifetime(steps: nat)
      requires Kept(files, originals) && (Marker !in files && !Quarantined(files) ==> originals == map[])
      modifies this
      ensures Kept(files, originals)
      ensures Preserves(old(files), files)
    {
      for i := 0 to steps
        invariant Kept(files, originals) && (Marker !in files && !Quarantined(files) ==> originals == map[])
        invariant Preserves(old(files), files)
      {
        ghost var before := files;
        var recover: bool := *;
        if recover {
          var _ := Recover();
        } else {
          var _ := Open();
        }
        Chain(old(files), before, files);
      }
    }
  }

  lemma Untouched(files: Files, intent: Content, originals: map<Suffix, Content>)
    requires originals == Stored(files) && !Quarantined(files)
    ensures Kept(files[Marker := intent], originals) && Preserves(files, files[Marker := intent])
  {
    AllSuffixes();
  }

  lemma Same(files: Files)
    ensures Preserves(files, files)
  {
  }

  lemma Chain(a: Files, b: Files, c: Files)
    requires Preserves(a, b) && Preserves(b, c)
    ensures Preserves(a, c)
  {
  }

  lemma AllInQuarantine(files: Files, originals: map<Suffix, Content>)
    requires Kept(files, originals) && forall s :: Index(s) !in files
    ensures forall s :: s in originals ==> Quarantine(s) in files && files[Quarantine(s)] == originals[s]
  {
  }

  lemma NoneKept(files: Files, originals: map<Suffix, Content>)
    requires Marker !in files && Kept(files, originals) && !Quarantined(files)
    ensures originals == map[]
  {
    AllSuffixes();
    assert forall s :: s !in originals;
  }

  lemma AllSuffixes()
    ensures forall s: Suffix :: s in SUFFIXES
  {
    assert SUFFIXES[0] == Main && SUFFIXES[1] == Journal && SUFFIXES[2] == Wal && SUFFIXES[3] == SharedMemory;
    forall s: Suffix ensures s in SUFFIXES {
      match s {
        case Main =>
        case Journal =>
        case Wal =>
        case SharedMemory =>
      }
    }
  }
}
