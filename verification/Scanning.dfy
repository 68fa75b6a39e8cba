/** What a directory scan reports (src/daemon/metadata/scan.rs), independently of the listing order. */
module Scanning {
  import opened Names
  import opened Metadata
  import opened Transactions

  /** The final name a listed record file stands for. */
  function Stripped(name: string): string
    requires EndsWith(name, STATE)
  {
    if EndsWith(name, NEW_STATE) then Owner(name) else name[..|name| - |STATE|]
  }

  /** The listed records of one directory that a scan leaves in place. */
  predicate Kept(m: Meta, dir: VPath, f: RecordFile) {
    f in m.files && f.dir == dir && Listed(f.name) && !SweptByScan(m, f)
  }

  function NewStateIn(dir: VPath, name: string): RecordFile { RecordFile(dir, name + NEW_STATE) }

  function StateIn(dir: VPath, name: string): RecordFile { RecordFile(dir, name + STATE) }

  /** The scan's map: a live in-flight record hides the committed one of the same name. */
  function ScanResult(m: Meta, dir: VPath): map<string, State> {
    map name | name in (set f | Kept(m, dir, f) && f in m.files :: Stripped(f.name))
      :: if Kept(m, dir, NewStateIn(dir, name)) then m.files[NewStateIn(dir, name)]
         else m.files[Shown(m, dir, name)]
  }

  /** The committed record of a name the scan reports. */
  function Shown(m: Meta, dir: VPath, name: string): RecordFile
    requires name in (set f | Kept(m, dir, f) && f in m.files :: Stripped(f.name))
    requires !Kept(m, dir, NewStateIn(dir, name))
    ensures Shown(m, dir, name) == StateIn(dir, name) && Kept(m, dir, StateIn(dir, name))
  {
    assert Kept(m, dir, StateIn(dir, name)) by {
      var f :| Kept(m, dir, f) && f in m.files && Stripped(f.name) == name;
      StrippedInverts(f.name);
    }
    StateIn(dir, name)
  }

  lemma StrippedInverts(name: string)
    requires EndsWith(name, STATE)
    ensures name == if EndsWith(name, NEW_STATE) then Stripped(name) + NEW_STATE else Stripped(name) + STATE
  {
  }

  lemma NameForms(name: string)
    ensures EndsWith(name + NEW_STATE, NEW_STATE) && EndsWith(name + NEW_STATE, STATE)
    ensures Owner(name + NEW_STATE) == name
    ensures EndsWith(name + STATE, STATE)
    ensures Stripped(name + NEW_STATE) == name
    ensures !EndsWith(name + STATE, NEW_STATE) ==> Stripped(name + STATE) == name
  {
    EndsWithTail(name, NEW_STATE);
    EndsWithTail(name, STATE);
    NewStateSplits(name);
    EndsWithTail(name + NEW, STATE);
  }

  lemma StateFileIn(p: VPath)
    requires p.suffix != []
    ensures StateFile(p) == StateIn(p.Parent(), p.FinalName())
    ensures NewStateFile(p) == NewStateIn(p.Parent(), p.FinalName())
  {
  }

  /** A name is reported exactly when one of its two records is kept. */
  lemma ReportedNames(m: Meta, dir: VPath, name: string)
    ensures name in ScanResult(m, dir)
            <==> Kept(m, dir, NewStateIn(dir, name))
                 || (Kept(m, dir, StateIn(dir, name)) && !EndsWith(name + STATE, NEW_STATE))
  {
    NameForms(name);
    if name in ScanResult(m, dir) {
      var f :| Kept(m, dir, f) && f in m.files && Stripped(f.name) == name;
      StrippedInverts(f.name);
    }
    if Kept(m, dir, NewStateIn(dir, name)) {
      assert NewStateIn(dir, name) in m.files;
      assert Stripped(NewStateIn(dir, name).name) == name;
    }
    if Kept(m, dir, StateIn(dir, name)) && !EndsWith(name + STATE, NEW_STATE) {
      assert StateIn(dir, name) in m.files;
      assert Stripped(StateIn(dir, name).name) == name;
    }
  }

  /**
   A scan takes away the listed records of the directory without signatures, and those of uploads that are not in
   flight; every other record of any directory stays as it is.
   */
  lemma ScanLeaves(m: Meta, dir: VPath, f: RecordFile)
    ensures f in ScanStates(m, dir).files
            <==> f in m.files
                 && !(f.dir == dir && !StartsWithDot(f.name) && EndsWith(f.name, STATE)
                      && (m.files[f].signatures == []
                          || (EndsWith(f.name, NEW_STATE) && dir.Join(f.name[..|f.name| - 10]) !in m.writing)))
    ensures f in ScanStates(m, dir).files ==> ScanStates(m, dir).files[f] == m.files[f]
    ensures ScanStates(m, dir).writing == m.writing
  {
  }

  /** What it reports carries signatures and is still on disk afterwards. */
  lemma ScanReportsWhatStays(m: Meta, dir: VPath, name: string)
    requires name in ScanResult(m, dir)
    ensures ScanResult(m, dir)[name].signatures != []
    ensures exists f :: f in ScanStates(m, dir).files && f.dir == dir
                        && (f.name == name + STATE || f.name == name + NEW_STATE)
                        && ScanStates(m, dir).files[f] == ScanResult(m, dir)[name]
  {
    var f := if Kept(m, dir, NewStateIn(dir, name)) then NewStateIn(dir, name) else Shown(m, dir, name);
    assert f in ScanStates(m, dir).files && ScanStates(m, dir).files[f] == ScanResult(m, dir)[name];
  }

  /** During normal operation a scan reports, for a listed name, the upload in flight or else the record. */
  lemma ScanPrefersTheUpload(cfg: Config, m: Meta, p: VPath)
    requires Inv(cfg, m) && Plain(p) && Listed(StateFile(p).name)
    ensures var result := ScanResult(m, p.Parent());
            && (p in m.writing ==>
                  && p.FinalName() in result
                  && result[p.FinalName()] == State(m.writing[p].image, m.writing[p].signatures))
            && (p !in m.writing && StateFile(p) in m.files ==>
                  p.FinalName() in result && result[p.FinalName()] == m.files[StateFile(p)])
            && (p !in m.writing && StateFile(p) !in m.files ==> p.FinalName() !in result)
  {
    var dir, name := p.Parent(), p.FinalName();
    StateFileIn(p);
    NotInFlightName(p);
    RecordsShareADirectory(p);
    NameForms(name);
    ReportedNames(m, dir, name);
    assert dir.Join(name) == p by { assert p.suffix == dir.suffix + [name]; }
    if p in m.writing {
      assert InFlight(cfg, m, p);
      assert Recorded(cfg, m, NewStateFile(p));
      LiveRecord(m, p);
    }
    if StateFile(p) in m.files {
      assert Recorded(cfg, m, StateFile(p));
    }
  }

  /**
   After a restart at any point, a scan of a directory reports exactly its committed records under
   listed names, all of which carry signatures, and no listed in-flight record is left.
   */
  lemma CrashThenScan(cfg: Config, steps: seq<Step>, dir: VPath)
    requires AllAdmissible(steps)
    ensures var m := Crash(Run(cfg, EMPTY, steps));
            && (forall name :: name in ScanResult(m, dir) <==>
                  StateIn(dir, name) in m.files && Listed(name + STATE) && !EndsWith(name + STATE, NEW_STATE))
            && (forall name :: name in ScanResult(m, dir) ==>
                  StateIn(dir, name) in m.files && ScanResult(m, dir)[name] == m.files[StateIn(dir, name)]
                  && m.files[StateIn(dir, name)].signatures != [])
            && (forall f :: f in ScanStates(m, dir).files && f.dir == dir && Listed(f.name) ==>
                  !EndsWith(f.name, NEW_STATE))
  {
    var m := Crash(Run(cfg, EMPTY, steps));
    RunKeepsInv(cfg, steps);
    NextKeepsInv(cfg, Run(cfg, EMPTY, steps), CrashStep);
    forall name
      ensures name in ScanResult(m, dir) <==>
              StateIn(dir, name) in m.files && Listed(name + STATE) && !EndsWith(name + STATE, NEW_STATE)
      ensures name in ScanResult(m, dir) ==>
                StateIn(dir, name) in m.files && ScanResult(m, dir)[name] == m.files[StateIn(dir, name)]
                && m.files[StateIn(dir, name)].signatures != []
    {
      ReportedNames(m, dir, name);
      NameForms(name);
      if StateIn(dir, name) in m.files {
        assert Recorded(cfg, m, StateIn(dir, name));
      }
    }
  }

  /** The in-flight record of a name that is not listed outlives every restart and scan. */
  lemma UnlistedStaleRecordStays(cfg: Config, m: Meta, p: VPath, dir: VPath)
    requires Plain(p) && p in m.writing && InFlight(cfg, m, p) && !Listed(StateFile(p).name)
    ensures NewStateFile(p) in ScanStates(Crash(m), dir).files
  {
    RecordsShareADirectory(p);
  }
}
