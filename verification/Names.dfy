/**
 Virtual paths (src/virtual_path.rs) and the names of the record files that the metadata directory
 holds for them (src/daemon/metadata/upload.rs, src/daemon/metadata/dir.rs).
 */
module Names {

  /** `/key/a/b/c` is `VPath("key", ["a", "b", "c"])`. */
  datatype VPath = VPath(key: string, suffix: seq<string>) {
    function Level(): nat { |suffix| }

    function FinalName(): string
      requires suffix != []
    {
      suffix[|suffix| - 1]
    }

    function Parent(): VPath
      requires suffix != []
    {
      VPath(key, suffix[..|suffix| - 1])
    }

    function Join(name: string): VPath { VPath(key, suffix + [name]) }
  }

  /** A file `name` in the metadata directory of `dir`. */
  datatype RecordFile = RecordFile(dir: VPath, name: string)

  const STATE := ".state"
  const NEW_STATE := ".new.state"
  const NEW := ".new"
  const TMP := ".tmp."

  function StateFile(path: VPath): RecordFile
    requires path.suffix != []
  {
    RecordFile(path.Parent(), path.FinalName() + STATE)
  }

  function NewStateFile(path: VPath): RecordFile
    requires path.suffix != []
  {
    RecordFile(path.Parent(), path.FinalName() + NEW_STATE)
  }

  predicate EndsWith(s: string, tail: string) {
    |tail| <= |s| && s[|s| - |tail|..] == tail
  }

  predicate StartsWithDot(s: string) {
    |s| > 0 && s[0] == '.'
  }

  /** Which names `list_files(".state")` returns: it passes over every name that starts with a dot. */
  predicate Listed(name: string) {
    !StartsWithDot(name) && EndsWith(name, STATE)
  }

  predicate StartsWith(s: string, head: string) {
    |head| <= |s| && s[..|head|] == head
  }

  /** The file that `replace_file` writes and then renames over `f`; a file of that name is lost. */
  function Temporary(f: RecordFile): RecordFile { RecordFile(f.dir, TMP + f.name) }

  /**
   A final name that keeps the records of all paths apart, from one another and from the temporaries:
   it does not end in `.new` or begin with `.tmp.`, and is not `.tmp`.
   */
  predicate PlainName(name: string) {
    !EndsWith(name, NEW) && !StartsWith(name, TMP) && name != ".tmp"
  }

  predicate Plain(path: VPath) { path.suffix != [] && PlainName(path.FinalName()) }

  lemma ParentAndName(p: VPath, q: VPath)
    requires p.suffix != [] && q.suffix != []
    ensures p == q <==> p.Parent() == q.Parent() && p.FinalName() == q.FinalName()
  {
    assert p.suffix == p.Parent().suffix + [p.FinalName()];
    assert q.suffix == q.Parent().suffix + [q.FinalName()];
  }

  lemma CancelTail(a: string, b: string, tail: string)
    ensures a + tail == b + tail <==> a == b
  {
    if a + tail == b + tail {
      assert |a + tail| == |a| + |tail| && |b + tail| == |b| + |tail|;
      assert a == (a + tail)[..|a|] && b == (b + tail)[..|b|];
    }
  }

  lemma EndsWithTail(a: string, tail: string)
    ensures EndsWith(a + tail, tail)
    ensures (a + tail)[..|a + tail| - |tail|] == a
  {
  }

  lemma NewStateSplits(name: string)
    ensures name + NEW_STATE == (name + NEW) + STATE
  {
  }

  /**
   When two record files of any two paths are one and the same file. The last clause is the clash
   that a final name ending in `.new` would bring about.
   */
  lemma RecordNamesApart(p: VPath, q: VPath)
    requires p.suffix != [] && q.suffix != []
    ensures StateFile(p) == StateFile(q) <==> p == q
    ensures NewStateFile(p) == NewStateFile(q) <==> p == q
    ensures StateFile(p) == NewStateFile(q)
            <==> p.Parent() == q.Parent() && p.FinalName() == q.FinalName() + NEW
  {
    ParentAndName(p, q);
    CancelTail(p.FinalName(), q.FinalName(), STATE);
    CancelTail(p.FinalName(), q.FinalName(), NEW_STATE);
    NewStateSplits(q.FinalName());
    CancelTail(p.FinalName(), q.FinalName() + NEW, STATE);
  }

  lemma CancelHead(a: string, b: string, head: string)
    ensures head + a == head + b <==> a == b
  {
    if head + a == head + b {
      assert a == (head + a)[|head|..] && b == (head + b)[|head|..];
    }
  }

  lemma Joined(a: string, b: string, c: string)
    ensures (a + b) + c == a + (b + c)
  {
  }

  /**
   When the temporary of a record of `q` is a record of `p`, so that writing the one takes the other away.
   The last clause covers, besides names ending in `.new`, the pair `.tmp` and `new`.
   */
  lemma TemporariesApart(p: VPath, q: VPath)
    requires p.suffix != [] && q.suffix != []
    ensures var siblings := p.Parent() == q.Parent();
            && (Temporary(StateFile(q)) == StateFile(p) <==> siblings && p.FinalName() == TMP + q.FinalName())
            && (Temporary(NewStateFile(q)) == NewStateFile(p) <==> siblings && p.FinalName() == TMP + q.FinalName())
            && (Temporary(NewStateFile(q)) == StateFile(p) <==> siblings && p.FinalName() == TMP + q.FinalName() + NEW)
            && (Temporary(StateFile(q)) == NewStateFile(p)
                <==> siblings && ((EndsWith(q.FinalName(), NEW)
                                   && p.FinalName() == TMP + q.FinalName()[..|q.FinalName()| - 4])
                                  || (p.FinalName() == ".tmp" && q.FinalName() == "new")))
  {
    var n, o := p.FinalName(), q.FinalName();
    Joined(TMP, o, STATE);
    Joined(TMP, o, NEW_STATE);
    NewStateSplits(TMP + o);
    NewStateSplits(n);
    CancelTail(n, TMP + o, STATE);
    CancelTail(n, TMP + o, NEW_STATE);
    CancelTail(n, TMP + o + NEW, STATE);
    CancelTail(n + NEW, TMP + o, STATE);
    Overlap(n, o);
  }

  /** How `.new` can end the name of a temporary: after a whole name, or across `.tmp` and `new`. */
  lemma Overlap(n: string, o: string)
    ensures n + NEW == TMP + o
            <==> (EndsWith(o, NEW) && n == TMP + o[..|o| - 4]) || (n == ".tmp" && o == "new")
  {
    if EndsWith(o, NEW) {
      assert o == o[..|o| - 4] + NEW;
      Joined(TMP, o[..|o| - 4], NEW);
      CancelTail(n, TMP + o[..|o| - 4], NEW);
    }
    if n + NEW == TMP + o {
      ShortOverlap(n, o);
    }
  }

  lemma ShortOverlap(n: string, o: string)
    requires n + NEW == TMP + o
    ensures EndsWith(o, NEW) || (n == ".tmp" && o == "new")
  {
    var all := n + NEW;
    assert |n| == |o| + 1;
    assert all[|n|..] == NEW && all[..|n|] == n && all[5..] == o;
    if |o| >= 4 {
      assert o[|o| - 4..] == all[|n|..];
    } else {
      assert all[|n|] == '.' && all[|n|] == (TMP + o)[|n|];
      assert |n| == 4;
      assert n == (TMP + o)[..4] == TMP[..4];
      assert o == all[5..] == NEW[1..];
    }
  }

  /** On plain paths no record file is another's, or the temporary of any. */
  lemma PlainNamesApart(p: VPath, q: VPath)
    requires Plain(p) && Plain(q)
    ensures StateFile(p) == StateFile(q) <==> p == q
    ensures NewStateFile(p) == NewStateFile(q) <==> p == q
    ensures StateFile(p) != NewStateFile(q)
    ensures Temporary(StateFile(q)) != StateFile(p) && Temporary(StateFile(q)) != NewStateFile(p)
    ensures Temporary(NewStateFile(q)) != StateFile(p) && Temporary(NewStateFile(q)) != NewStateFile(p)
  {
    RecordNamesApart(p, q);
    TemporariesApart(p, q);
    EndsWithTail(q.FinalName(), NEW);
    EndsWithTail(TMP + q.FinalName(), NEW);
  }

  /** `q` shares a record with `p`, or the temporary of a record of `q` is one of `p`. */
  predicate Clash(p: VPath, q: VPath)
    requires p.suffix != [] && q.suffix != []
  {
    || StateFile(p) == NewStateFile(q)
    || Temporary(StateFile(q)) == StateFile(p) || Temporary(StateFile(q)) == NewStateFile(p)
  }

  /** The sibling of a path with another final name. */
  function Sibling(p: VPath, name: string): (q: VPath)
    requires p.suffix != []
    ensures q.suffix != [] && q.Parent() == p.Parent() && q.FinalName() == name
  {
    p.Parent().Join(name)
  }

  lemma SuffixClashes(p: VPath, name: string)
    requires p.suffix != [] && p.FinalName() == name + NEW
    ensures Sibling(p, name) != p && Clash(p, Sibling(p, name))
  {
    RecordNamesApart(p, Sibling(p, name));
    assert |p.FinalName()| == |name| + 4;
  }

  lemma PrefixClashes(p: VPath, name: string)
    requires p.suffix != [] && p.FinalName() == TMP + name
    ensures Sibling(p, name) != p && Clash(p, Sibling(p, name))
  {
    TemporariesApart(p, Sibling(p, name));
    assert |p.FinalName()| == 5 + |name|;
  }

  lemma AcrossClashes(p: VPath)
    requires p.suffix != [] && p.FinalName() == ".tmp"
    ensures Sibling(p, "new") != p && Clash(p, Sibling(p, "new"))
  {
    TemporariesApart(p, Sibling(p, "new"));
    assert |p.FinalName()| == 4;
  }

  lemma EndSplits(s: string, tail: string)
    requires EndsWith(s, tail)
    ensures s == s[..|s| - |tail|] + tail
  {
  }

  lemma HeadSplits(s: string, head: string)
    requires StartsWith(s, head)
    ensures s == head + s[|head|..]
  {
  }

  /** What is left of a name when the part that rules it out is taken away. */
  function Bare(name: string): string {
    if EndsWith(name, NEW) then name[..|name| - |NEW|]
    else if StartsWith(name, TMP) then name[|TMP|..]
    else "new"
  }

  /** Every path that is not plain clashes with a sibling, so nothing is ruled out without need. */
  lemma OthersClash(p: VPath)
    requires p.suffix != [] && !Plain(p)
    ensures Sibling(p, Bare(p.FinalName())) != p && Clash(p, Sibling(p, Bare(p.FinalName())))
  {
    var n := p.FinalName();
    if EndsWith(n, NEW) {
      EndSplits(n, NEW);
      SuffixClashes(p, Bare(n));
    } else if StartsWith(n, TMP) {
      HeadSplits(n, TMP);
      PrefixClashes(p, Bare(n));
    } else {
      AcrossClashes(p);
    }
  }

  /** Both record files of a path are listed, or neither is: the leading dot of the final name decides. */
  lemma ListedTogether(p: VPath)
    requires p.suffix != []
    ensures EndsWith(StateFile(p).name, STATE) && EndsWith(NewStateFile(p).name, STATE)
    ensures Listed(StateFile(p).name) == Listed(NewStateFile(p).name)
    ensures Listed(StateFile(p).name) <==> p.FinalName() != "" && !StartsWithDot(p.FinalName())
  {
    EndsWithTail(p.FinalName(), STATE);
    NewStateSplits(p.FinalName());
    EndsWithTail(p.FinalName() + NEW, STATE);
  }
}
