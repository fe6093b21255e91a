/** The output directory as a value: the directories created and the files
    written, by path relative to the output directory.  The generator's file
    system calls are a sequence of effects applied in order, so a later write
    to a path replaces an earlier one. */
module Disk {
  import opened Wrappers

  datatype Disk = Disk(dirs: set<string>, files: map<string, string>)

  /** The file at `p` exists and holds `content`. */
  predicate Holds(d: Disk, p: string, content: string) {
    p in d.files && d.files[p] == content
  }

  /** `fs.mkdir(path, { recursive: true })` or
      `fs.writeFile(path, content, 'utf-8')`. */
  datatype Effect = Mkdir(path: string) | WriteFile(path: string, content: string)

  predicate WritesTo(e: Effect, p: string) {
    e.WriteFile? && e.path == p
  }

  /** The directories an effect sequence creates. */
  function DirsCreated(es: seq<Effect>): set<string> {
    set i | 0 <= i < |es| && es[i].Mkdir? :: es[i].path
  }

  /** The paths an effect sequence writes. */
  function WrittenPaths(es: seq<Effect>): set<string> {
    set i | 0 <= i < |es| && es[i].WriteFile? :: es[i].path
  }

  /** The content of the last write to `p`, if any. */
  function LastWrite(es: seq<Effect>, p: string): (r: Option<string>)
    ensures r.Some? ==> WriteFile(p, r.value) in es
    ensures r.None? <==> forall i :: 0 <= i < |es| ==> !WritesTo(es[i], p)
    ensures r.Some? <==> p in WrittenPaths(es)
  {
    if |es| == 0 then None
    else if WritesTo(es[|es| - 1], p) then Some(es[|es| - 1].content)
    else
      var r := LastWrite(es[..|es| - 1], p);
      assert forall i :: 0 <= i < |es| - 1 ==> es[i] == es[..|es| - 1][i];
      r
  }

  function Step(d: Disk, e: Effect): Disk {
    match e
    case Mkdir(p) => d.(dirs := d.dirs + {p})
    case WriteFile(p, c) => d.(files := d.files[p := c])
  }

  /** The disk after the effects, in order.  Every directory created is there;
      a path holds the content of the last write to it, or what it held
      before when nothing wrote to it. */
  function Apply(d: Disk, es: seq<Effect>): (r: Disk)
    ensures r.dirs == d.dirs + DirsCreated(es)
    ensures forall p :: p in r.files <==> p in d.files || LastWrite(es, p).Some?
    ensures forall p :: LastWrite(es, p).Some? ==> r.files[p] == LastWrite(es, p).value
    ensures forall p :: p in d.files && LastWrite(es, p).None? ==> r.files[p] == d.files[p]
  {
    if |es| == 0 then d
    else
      var pre := es[..|es| - 1];
      assert DirsCreated(es) == DirsCreated(pre) + (if es[|es| - 1].Mkdir? then {es[|es| - 1].path} else {}) by {
        assert forall i :: 0 <= i < |pre| ==> pre[i] == es[i];
      }
      Step(Apply(d, pre), es[|es| - 1])
  }

  /** A write in the later block hides every write to the same path in the
      earlier block. */
  lemma {:induction false} LastWriteAppend(a: seq<Effect>, b: seq<Effect>, p: string)
    ensures LastWrite(a + b, p) == if LastWrite(b, p).Some? then LastWrite(b, p) else LastWrite(a, p)
    decreases |b|
  {
    if |b| > 0 {
      assert (a + b)[..|a + b| - 1] == a + b[..|b| - 1];
      assert (a + b)[|a + b| - 1] == b[|b| - 1];
      LastWriteAppend(a, b[..|b| - 1], p);
    } else {
      assert a + b == a;
    }
  }

  lemma DirsCreatedAppend(a: seq<Effect>, b: seq<Effect>)
    ensures DirsCreated(a + b) == DirsCreated(a) + DirsCreated(b)
  {
    var ab := a + b;
    forall x | x in DirsCreated(ab) ensures x in DirsCreated(a) + DirsCreated(b) {
      var i :| 0 <= i < |ab| && ab[i].Mkdir? && ab[i].path == x;
      if i < |a| {
        assert a[i] == ab[i];
      } else {
        assert b[i - |a|] == ab[i];
      }
    }
    forall x | x in DirsCreated(a) + DirsCreated(b) ensures x in DirsCreated(ab) {
      if x in DirsCreated(a) {
        var i :| 0 <= i < |a| && a[i].Mkdir? && a[i].path == x;
        assert ab[i] == a[i];
      } else {
        var i :| 0 <= i < |b| && b[i].Mkdir? && b[i].path == x;
        assert ab[|a| + i] == b[i];
      }
    }
  }

  lemma WrittenPathsAppend(a: seq<Effect>, b: seq<Effect>)
    ensures WrittenPaths(a + b) == WrittenPaths(a) + WrittenPaths(b)
  {
    var ab := a + b;
    forall x | x in WrittenPaths(ab) ensures x in WrittenPaths(a) + WrittenPaths(b) {
      var i :| 0 <= i < |ab| && ab[i].WriteFile? && ab[i].path == x;
      if i < |a| {
        assert a[i] == ab[i];
      } else {
        assert b[i - |a|] == ab[i];
      }
    }
    forall x | x in WrittenPaths(a) + WrittenPaths(b) ensures x in WrittenPaths(ab) {
      if x in WrittenPaths(a) {
        var i :| 0 <= i < |a| && a[i].WriteFile? && a[i].path == x;
        assert ab[i] == a[i];
      } else {
        var i :| 0 <= i < |b| && b[i].WriteFile? && b[i].path == x;
        assert ab[|a| + i] == b[i];
      }
    }
  }

  /** A write at the end of a sequence is the last write to its path. */
  lemma LastWriteFinal(es: seq<Effect>, p: string, c: string)
    ensures LastWrite(es + [WriteFile(p, c)], p) == Some(c)
  {
    assert (es + [WriteFile(p, c)])[|es|] == WriteFile(p, c);
  }

  lemma SingleEffect(e: Effect)
    ensures WrittenPaths([e]) == if e.WriteFile? then {e.path} else {}
    ensures DirsCreated([e]) == if e.Mkdir? then {e.path} else {}
  {
    assert [e][0] == e;
  }

  /** A block that does not write `p` leaves the last write to `p` where it
      was. */
  lemma LastWriteSkipsLater(a: seq<Effect>, b: seq<Effect>, p: string)
    requires p !in WrittenPaths(b)
    ensures LastWrite(a + b, p) == LastWrite(a, p)
  {
    LastWriteAppend(a, b, p);
  }

  lemma LastWriteSkipsEarlier(a: seq<Effect>, b: seq<Effect>, p: string)
    requires p !in WrittenPaths(a)
    ensures LastWrite(a + b, p) == LastWrite(b, p)
  {
    LastWriteAppend(a, b, p);
  }

  /** Three blocks in a row write and create what each of them does. */
  lemma ThreeBlocks(a: seq<Effect>, b: seq<Effect>, c: seq<Effect>)
    ensures WrittenPaths((a + b) + c) == WrittenPaths(a) + WrittenPaths(b) + WrittenPaths(c)
    ensures DirsCreated((a + b) + c) == DirsCreated(a) + DirsCreated(b) + DirsCreated(c)
  {
    WrittenPathsAppend(a, b);
    WrittenPathsAppend(a + b, c);
    DirsCreatedAppend(a, b);
    DirsCreatedAppend(a + b, c);
  }

  /** Of three blocks in a row, the only one writing `p` decides its
      content. */
  lemma LastWriteInFirst(a: seq<Effect>, b: seq<Effect>, c: seq<Effect>, p: string)
    requires p !in WrittenPaths(b) && p !in WrittenPaths(c)
    ensures LastWrite((a + b) + c, p) == LastWrite(a, p)
  {
    LastWriteAppend(a + b, c, p);
    LastWriteAppend(a, b, p);
  }

  lemma LastWriteInSecond(a: seq<Effect>, b: seq<Effect>, c: seq<Effect>, p: string)
    requires p !in WrittenPaths(a) && p !in WrittenPaths(c)
    ensures LastWrite((a + b) + c, p) == LastWrite(b, p)
  {
    LastWriteAppend(a + b, c, p);
    LastWriteAppend(a, b, p);
  }

  lemma LastWriteInThird(a: seq<Effect>, b: seq<Effect>, c: seq<Effect>, p: string)
    requires p !in WrittenPaths(a) && p !in WrittenPaths(b)
    ensures LastWrite((a + b) + c, p) == LastWrite(c, p)
  {
    LastWriteAppend(a + b, c, p);
    LastWriteAppend(a, b, p);
  }

  /** The files after the effects are those before plus those written. */
  lemma ApplyPaths(d: Disk, es: seq<Effect>)
    ensures Apply(d, es).files.Keys == d.files.Keys + WrittenPaths(es)
  {
  }

  /** What the effects create and write, added to the disk they run on. */
  lemma ApplyLayout(d: Disk, es: seq<Effect>, dirs: set<string>, paths: set<string>)
    requires DirsCreated(es) == dirs && WrittenPaths(es) == paths
    ensures Apply(d, es).dirs == d.dirs + dirs
    ensures Apply(d, es).files.Keys == d.files.Keys + paths
  {
    ApplyPaths(d, es);
  }

  /** A single `mkdir` only adds its directory. */
  lemma ApplyMkdir(d: Disk, p: string)
    ensures Apply(d, [Mkdir(p)]) == d.(dirs := d.dirs + {p})
  {
    assert [Mkdir(p)][..0] == [];
  }
}
