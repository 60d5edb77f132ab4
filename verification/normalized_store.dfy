/** Installing one content-addressed artifact by hard link, under kills and power loss.

A corpus directory belongs to one commitment, so every process that writes there writes the same
artifact.  Directory entries become durable at a directory sync, file bytes at a file sync; before
that, power loss may keep or drop each entry change independently.
*/
module NormalizedStore {
  import opened Records

  datatype Name = Final | Temp(token: nat)

  /** File bytes and how many of them are durable. */
  datatype File = File(bytes: Bytes, synced: nat)

  /** Names now, names at the last directory sync, and the files behind them by inode. */
  datatype Dir = Dir(entries: map<Name, nat>, durable: map<Name, nat>, files: map<nat, File>)

  const EMPTY_DIR: Dir := Dir(map[], map[], map[])

  datatype Op =
    | Unlink(name: Name)
    | SyncDir
    | Create(name: Name, ino: nat)
    | WriteFile(ino: nat, bytes: Bytes)
    | SyncFile(ino: nat)
    | LinkFinal(name: Name)

  /** The operation done to the end; one that the system would refuse changes nothing. */
  function Perform(d: Dir, op: Op): Dir {
    match op
    case Unlink(name) => d.(entries := d.entries - {name})
    case SyncDir => d.(durable := d.entries)
    case Create(name, ino) =>
      if name in d.entries || ino in d.files then d
      else d.(entries := d.entries[name := ino], files := d.files[ino := File([], 0)])
    case WriteFile(ino, bytes) =>
      if ino !in d.files then d
      else d.(files := d.files[ino := d.files[ino].(bytes := d.files[ino].bytes + bytes)])
    case SyncFile(ino) =>
      if ino !in d.files then d
      else d.(files := d.files[ino := d.files[ino].(synced := |d.files[ino].bytes|)])
    case LinkFinal(name) =>
      if name !in d.entries || Final in d.entries then d
      else d.(entries := d.entries[Final := d.entries[name]])
  }

  function PerformAll(d: Dir, ops: seq<Op>): Dir
    decreases |ops|
  {
    if ops == [] then d else PerformAll(Perform(d, ops[0]), ops[1..])
  }

  /** A kill inside an operation: only a file write has a middle. */
  function CutShort(d: Dir, op: Op, cut: nat): Dir {
    match op
    case WriteFile(ino, bytes) => if cut <= |bytes| then Perform(d, WriteFile(ino, bytes[..cut])) else d
    case _ => d
  }

  // ---- The invariant ---------------------------------------------------------

  /** `name` stands, or could stand after power loss, for inode `ino`. */
  predicate Names(d: Dir, name: Name, ino: nat) {
    (name in d.entries && d.entries[name] == ino) || (name in d.durable && d.durable[name] == ino)
  }

  predicate Complete(d: Dir, ino: nat, artifact: Bytes) {
    ino in d.files && d.files[ino] == File(artifact, |artifact|)
  }

  /** Two names share a file only while a temporary name is being turned into the final one. */
  ghost predicate SharedOnlyWithFinal(d: Dir) {
    forall m, n, ino :: Names(d, m, ino) && Names(d, n, ino) && m != n ==> m == Final || n == Final
  }

  ghost predicate FinalSettled(d: Dir) {
    && (Final in d.durable ==> Final in d.entries && d.entries[Final] == d.durable[Final])
    && (Final in d.entries ==>
          forall m, n :: Names(d, m, d.entries[Final]) && Names(d, n, d.entries[Final]) && m != Final && n != Final ==>
                 m == n)
  }

  ghost predicate Inv(d: Dir, artifact: Bytes) {
    && SharedOnlyWithFinal(d)
    && FinalSettled(d)
    && (Final in d.entries ==> Complete(d, d.entries[Final], artifact))
    && (forall name, ino :: Names(d, name, ino) ==> ino in d.files)
    && (forall ino :: ino in d.files ==> d.files[ino].synced <= |d.files[ino].bytes|)
  }

  // ---- Operations that keep it -----------------------------------------------

  ghost predicate OnlyName(d: Dir, name: Name, ino: nat) {
    forall n :: Names(d, n, ino) ==> n == name
  }

  ghost predicate Safe(d: Dir, op: Op, artifact: Bytes) {
    match op
    case Unlink(name) => name.Temp?
    case SyncDir => true
    case Create(name, ino) => name.Temp? && name !in d.entries && ino !in d.files
    case WriteFile(ino, _) => Final !in d.entries || d.entries[Final] != ino
    case SyncFile(_) => true
    case LinkFinal(name) =>
      && name.Temp? && name in d.entries && Final !in d.entries
      && OnlyName(d, name, d.entries[name]) && Complete(d, d.entries[name], artifact)
  }

  lemma PerformKeeps(d: Dir, op: Op, artifact: Bytes)
    requires Inv(d, artifact) && Safe(d, op, artifact)
    ensures Inv(Perform(d, op), artifact)
  {
    var e := Perform(d, op);
    match op {
      case Create(name, ino) =>
        assert forall n, i :: Names(e, n, i) ==> Names(d, n, i) || (n == name && i == ino);
        assert forall n :: !Names(d, n, ino);
      case LinkFinal(name) =>
        var ino := d.entries[name];
        assert forall n, i :: Names(e, n, i) ==> Names(d, n, i) || (n == Final && i == ino);
        assert forall n :: Names(d, n, ino) ==> n == name;
      case _ =>
        assert forall n, i :: Names(e, n, i) ==> Names(d, n, i);
    }
  }

  lemma CutShortKeeps(d: Dir, op: Op, cut: nat, artifact: Bytes)
    requires Inv(d, artifact) && Safe(d, op, artifact)
    ensures Inv(CutShort(d, op, cut), artifact)
  {
    if op.WriteFile? && cut <= |op.bytes| {
      PerformKeeps(d, WriteFile(op.ino, op.bytes[..cut]), artifact);
    }
  }

  /** Which entry changes and which file bytes survive a power loss. */
  datatype Survivors = Survivors(keepsNew: Name -> bool, bytes: nat -> nat)

  function SurvivingEntry(d: Dir, keep: Survivors, name: Name): Option<nat> {
    var side := if keep.keepsNew(name) then d.entries else d.durable;
    if name in side then Some(side[name]) else None
  }

  function SurvivingFile(f: File, keep: nat): File {
    if f.synced <= keep <= |f.bytes| then File(f.bytes[..keep], f.synced)
    else if f.synced <= |f.bytes| then File(f.bytes[..f.synced], f.synced) else f
  }

  function AfterPowerLoss(d: Dir, keep: Survivors): Dir {
    var names := d.entries.Keys + d.durable.Keys;
    var entries := map name | name in names && SurvivingEntry(d, keep, name).Some? ::
                     SurvivingEntry(d, keep, name).value;
    Dir(entries, entries, map ino | ino in d.files :: SurvivingFile(d.files[ino], keep.bytes(ino)))
  }

  lemma PowerLossKeeps(d: Dir, keep: Survivors, artifact: Bytes)
    requires Inv(d, artifact)
    ensures Inv(AfterPowerLoss(d, keep), artifact)
  {
    var e := AfterPowerLoss(d, keep);
    forall n: Name, i: nat | Names(e, n, i)
      ensures Names(d, n, i)
    {
      assert SurvivingEntry(d, keep, n) == Some(i);
    }
    assert SharedOnlyWithFinal(e);
    if Final in e.entries {
      assert Names(d, Final, e.entries[Final]);
      assert e.entries[Final] == d.entries[Final];
    }
  }

  // ---- The plan of one store -------------------------------------------------

  /** The temporary names of the directory, each once. */
  ghost predicate Listing(d: Dir, temps: seq<Name>) {
    && (forall n :: n in temps <==> n in d.entries && n.Temp?)
    && (forall j, k :: 0 <= j < k < |temps| ==> temps[j] != temps[k])
  }

  function Unlinks(temps: seq<Name>): seq<Op> {
    if temps == [] then [] else [Unlink(temps[0])] + Unlinks(temps[1..])
  }

  function RecoverOps(temps: seq<Name>): seq<Op> {
    if temps == [] then [] else Unlinks(temps) + [SyncDir]
  }

  /** Link the filled temporary name into place, then drop it. */
  function LinkOps(temp: Name): seq<Op> {
    [LinkFinal(temp)] + ([SyncDir] + ([Unlink(temp)] + [SyncDir]))
  }

  function FillOps(temp: Name, ino: nat, artifact: Bytes): seq<Op> {
    [WriteFile(ino, artifact)] + ([SyncFile(ino)] + LinkOps(temp))
  }

  function InstallOps(temp: Name, ino: nat, artifact: Bytes): seq<Op> {
    [Create(temp, ino)] + FillOps(temp, ino, artifact)
  }

  /** What `store_corpus_artifact` does to a directory it accepts. */
  function StoreOps(d: Dir, temps: seq<Name>, temp: Name, ino: nat, artifact: Bytes): seq<Op> {
    RecoverOps(temps) +
    (if Final in d.entries then [SyncFile(d.entries[Final]), SyncDir] else InstallOps(temp, ino, artifact))
  }

  /** Each operation is safe when its turn comes. */
  ghost predicate Ready(d: Dir, ops: seq<Op>, artifact: Bytes)
    decreases |ops|
  {
    ops == [] || (Safe(d, ops[0], artifact) && Ready(Perform(d, ops[0]), ops[1..], artifact))
  }

  lemma ReadyStep(d: Dir, op: Op, rest: seq<Op>, artifact: Bytes)
    requires Safe(d, op, artifact) && Ready(Perform(d, op), rest, artifact)
    ensures Ready(d, [op] + rest, artifact)
    ensures PerformAll(d, [op] + rest) == PerformAll(Perform(d, op), rest)
  {
    assert ([op] + rest)[1..] == rest;
  }

  function WithoutTemps(d: Dir, temps: seq<Name>): Dir {
    d.(entries := map n | n in d.entries && n !in temps :: d.entries[n])
  }

  lemma {:induction false} UnlinksReady(d: Dir, temps: seq<Name>, rest: seq<Op>, artifact: Bytes)
    requires forall n :: n in temps ==> n.Temp?
    requires Ready(WithoutTemps(d, temps), rest, artifact)
    ensures Ready(d, Unlinks(temps) + rest, artifact)
    ensures PerformAll(d, Unlinks(temps) + rest) == PerformAll(WithoutTemps(d, temps), rest)
    decreases |temps|
  {
    if temps == [] {
      assert WithoutTemps(d, temps).entries == d.entries;
      assert Unlinks(temps) + rest == rest;
    } else {
      hide Ready, PerformAll, WithoutTemps;
      var op := Unlink(temps[0]);
      var next := Perform(d, op);
      UnlinkFirst(d, temps);
      assert forall n :: n in temps[1..] ==> n in temps;
      UnlinksReady(next, temps[1..], rest, artifact);
      assert temps[0] in temps && Safe(d, op, artifact);
      ReadyStep(d, op, Unlinks(temps[1..]) + rest, artifact);
      assert Unlinks(temps) + rest == [op] + (Unlinks(temps[1..]) + rest);
    }
  }

  lemma UnlinkFirst(d: Dir, temps: seq<Name>)
    requires temps != []
    ensures WithoutTemps(Perform(d, Unlink(temps[0])), temps[1..]) == WithoutTemps(d, temps)
  {
    assert WithoutTemps(Perform(d, Unlink(temps[0])), temps[1..]).entries == WithoutTemps(d, temps).entries;
  }

  lemma NoOpsReady(d: Dir, artifact: Bytes)
    ensures Ready(d, [], artifact) && PerformAll(d, []) == d
  {
  }

  /** Nothing but the complete artifact under the final name, with one link, all of it durable. */
  ghost predicate Installed(d: Dir, artifact: Bytes) {
    && Final in d.entries && Complete(d, d.entries[Final], artifact)
    && d.entries == map[Final := d.entries[Final]] && d.durable == d.entries
  }

  lemma LastReady(d: Dir, op: Op, artifact: Bytes)
    requires Safe(d, op, artifact)
    ensures Ready(d, [op], artifact) && PerformAll(d, [op]) == Perform(d, op)
  {
    ReadyStep(d, op, [], artifact);
    assert [op] + [] == [op];
  }

  lemma LinkReady(d: Dir, temp: Name, ino: nat, artifact: Bytes)
    requires Safe(d, LinkFinal(temp), artifact) && d.entries == map[temp := ino]
    ensures Ready(d, LinkOps(temp), artifact)
    ensures PerformAll(d, LinkOps(temp)) == Dir(map[Final := ino], map[Final := ino], d.files)
  {
    hide Ready, PerformAll;
    var d1 := Perform(d, LinkFinal(temp));
    var d2 := Perform(d1, SyncDir);
    var d3 := Perform(d2, Unlink(temp));
    assert d3.entries == map[Final := ino];
    LastReady(d3, SyncDir, artifact);
    ReadyStep(d2, Unlink(temp), [SyncDir], artifact);
    ReadyStep(d1, SyncDir, [Unlink(temp)] + [SyncDir], artifact);
    ReadyStep(d, LinkFinal(temp), [SyncDir] + ([Unlink(temp)] + [SyncDir]), artifact);
  }

  lemma FillStates(d: Dir, temp: Name, ino: nat, artifact: Bytes)
    requires temp.Temp? && d.entries == map[temp := ino] && OnlyName(d, temp, ino)
    requires ino in d.files && d.files[ino] == File([], 0)
    ensures var d1 := Perform(d, WriteFile(ino, artifact));
            var d2 := Perform(d1, SyncFile(ino));
            && Safe(d, WriteFile(ino, artifact), artifact) && Safe(d1, SyncFile(ino), artifact)
            && d2 == d.(files := d.files[ino := File(artifact, |artifact|)])
            && Safe(d2, LinkFinal(temp), artifact)
  {
    var d1 := Perform(d, WriteFile(ino, artifact));
    var d2 := Perform(d1, SyncFile(ino));
    assert [] + artifact == artifact;
    assert d2.files == d.files[ino := File(artifact, |artifact|)];
    forall n | Names(d2, n, ino)
      ensures n == temp
    {
      assert Names(d, n, ino);
    }
  }

  lemma FillReady(d: Dir, temp: Name, ino: nat, artifact: Bytes)
    requires temp.Temp? && d.entries == map[temp := ino] && OnlyName(d, temp, ino)
    requires ino in d.files && d.files[ino] == File([], 0)
    ensures Ready(d, FillOps(temp, ino, artifact), artifact)
    ensures PerformAll(d, FillOps(temp, ino, artifact)) ==
            Dir(map[Final := ino], map[Final := ino], d.files[ino := File(artifact, |artifact|)])
  {
    hide Ready, PerformAll, Perform, Safe, OnlyName;
    FillStates(d, temp, ino, artifact);
    var d1 := Perform(d, WriteFile(ino, artifact));
    var d2 := Perform(d1, SyncFile(ino));
    LinkReady(d2, temp, ino, artifact);
    ReadyStep(d1, SyncFile(ino), LinkOps(temp), artifact);
    ReadyStep(d, WriteFile(ino, artifact), [SyncFile(ino)] + LinkOps(temp), artifact);
  }

  lemma CreateState(d: Dir, temp: Name, ino: nat, artifact: Bytes)
    requires Inv(d, artifact) && temp.Temp? && d.entries == map[] && ino !in d.files
    ensures var e := Perform(d, Create(temp, ino));
            && Safe(d, Create(temp, ino), artifact)
            && e == Dir(map[temp := ino], d.durable, d.files[ino := File([], 0)])
            && OnlyName(e, temp, ino)
  {
    var e := Perform(d, Create(temp, ino));
    forall n | Names(e, n, ino)
      ensures n == temp
    {
      if n != temp {
        assert Names(d, n, ino);
      }
    }
  }

  lemma InstallReady(d: Dir, temp: Name, ino: nat, artifact: Bytes)
    requires Inv(d, artifact) && temp.Temp? && d.entries == map[] && ino !in d.files
    ensures Ready(d, InstallOps(temp, ino, artifact), artifact)
    ensures PerformAll(d, InstallOps(temp, ino, artifact)) ==
            Dir(map[Final := ino], map[Final := ino], d.files[ino := File(artifact, |artifact|)])
  {
    hide Ready, PerformAll, Perform, Safe, OnlyName, Inv, FillOps;
    CreateState(d, temp, ino, artifact);
    var e := Perform(d, Create(temp, ino));
    FillReady(e, temp, ino, artifact);
    ReadyStep(d, Create(temp, ino), FillOps(temp, ino, artifact), artifact);
    assert d.files[ino := File([], 0)][ino := File(artifact, |artifact|)] == d.files[ino := File(artifact, |artifact|)];
  }

  lemma WithoutTempsKeeps(d: Dir, temps: seq<Name>, artifact: Bytes)
    requires Inv(d, artifact) && forall n :: n in temps ==> n.Temp?
    ensures Inv(WithoutTemps(d, temps), artifact)
  {
    var e := WithoutTemps(d, temps);
    assert forall n, i :: Names(e, n, i) ==> Names(d, n, i);
    assert FinalSettled(e);
  }

  /** The directory once leftover temporary names are gone. */
  function Recovered(d: Dir, temps: seq<Name>): Dir {
    if temps == [] then d else Perform(WithoutTemps(d, temps), SyncDir)
  }

  lemma RecoverReady(d: Dir, temps: seq<Name>, rest: seq<Op>, artifact: Bytes)
    requires forall n :: n in temps ==> n.Temp?
    requires Ready(Recovered(d, temps), rest, artifact)
    ensures Ready(d, RecoverOps(temps) + rest, artifact)
    ensures PerformAll(d, RecoverOps(temps) + rest) == PerformAll(Recovered(d, temps), rest)
  {
    hide Ready, PerformAll, WithoutTemps;
    if temps == [] {
      assert RecoverOps(temps) + rest == rest;
    } else {
      ReadyStep(WithoutTemps(d, temps), SyncDir, rest, artifact);
      UnlinksReady(d, temps, [SyncDir] + rest, artifact);
      assert (Unlinks(temps) + [SyncDir]) + rest == Unlinks(temps) + ([SyncDir] + rest);
    }
  }

  lemma RecoveredKeeps(d: Dir, temps: seq<Name>, artifact: Bytes)
    requires Inv(d, artifact) && Listing(d, temps)
    ensures var e := Recovered(d, temps);
            && Inv(e, artifact) && e.files == d.files
            && (Final in d.entries <==> Final in e.entries)
            && e.entries == (if Final in d.entries then map[Final := d.entries[Final]] else map[])
  {
    var e := Recovered(d, temps);
    forall n: Name | n in e.entries
      ensures n == Final
    {
      assert temps == [] || n !in temps;
    }
    hide SharedOnlyWithFinal, FinalSettled;
    WithoutTempsKeeps(d, temps, artifact);
    PerformKeeps(WithoutTemps(d, temps), SyncDir, artifact);
  }

  lemma ConfirmReady(d: Dir, artifact: Bytes)
    requires Final in d.entries && Complete(d, d.entries[Final], artifact)
    ensures Ready(d, [SyncFile(d.entries[Final]), SyncDir], artifact)
    ensures PerformAll(d, [SyncFile(d.entries[Final]), SyncDir]) == d.(durable := d.entries)
  {
    hide Ready, PerformAll;
    var op := SyncFile(d.entries[Final]);
    assert Perform(d, op).files == d.files;
    LastReady(Perform(d, op), SyncDir, artifact);
    ReadyStep(d, op, [SyncDir], artifact);
    assert [op] + [SyncDir] == [op, SyncDir];
  }

  /** From every state the invariant allows, a store succeeds: every step is safe when its turn
      comes, and it ends with nothing in the directory but the complete artifact, one link, durable.
      An artifact already there keeps its file. */
  lemma StoreSucceeds(d: Dir, temps: seq<Name>, temp: Name, ino: nat, artifact: Bytes)
    requires Inv(d, artifact) && Listing(d, temps) && temp.Temp? && ino !in d.files
    ensures Ready(d, StoreOps(d, temps, temp, ino, artifact), artifact)
    ensures var e := PerformAll(d, StoreOps(d, temps, temp, ino, artifact));
            && Installed(e, artifact)
            && (Final in d.entries ==> e.files == d.files && e.entries[Final] == d.entries[Final])
            && (Final !in d.entries ==> e.entries[Final] == ino)
  {
    hide Ready, PerformAll, Recovered, SharedOnlyWithFinal, FinalSettled, InstallOps;
    var e := Recovered(d, temps);
    RecoveredKeeps(d, temps, artifact);
    if Final in d.entries {
      ConfirmReady(e, artifact);
      RecoverReady(d, temps, [SyncFile(e.entries[Final]), SyncDir], artifact);
    } else {
      InstallReady(e, temp, ino, artifact);
      RecoverReady(d, temps, InstallOps(temp, ino, artifact), artifact);
    }
  }

  lemma FirstListed(d: Dir, temps: seq<Name>)
    requires Listing(d, temps) && temps != []
    ensures exists n :: n in d.entries && n != Final
  {
    assert temps[0] in temps;
  }

  /** Storing the same artifact again changes nothing. */
  lemma StoreAgain(d: Dir, temps: seq<Name>, temp: Name, ino: nat, artifact: Bytes)
    requires Installed(d, artifact) && Listing(d, temps)
    ensures PerformAll(d, StoreOps(d, temps, temp, ino, artifact)) == d
  {
    if temps != [] {
      FirstListed(d, temps);
    }
    assert RecoverOps(temps) + [SyncFile(d.entries[Final]), SyncDir] == [SyncFile(d.entries[Final]), SyncDir];
    ConfirmReady(d, artifact);
  }

  // ---- Runs ------------------------------------------------------------------

  /** The lock lets in one process at a time; `cleanup` is what it still does when a step fails. */
  datatype Machine = Machine(dir: Dir, todo: seq<Op>, cleanup: seq<Op>)

  datatype Happening =
    | Begin(temps: seq<Name>, temp: Name, ino: nat)
    | Continue
    | Fail(cut: nat)
    | Kill(cut: nat)
    | PowerLoss(cut: nat, keep: Survivors)

  const IDLE: Machine := Machine(EMPTY_DIR, [], [])

  ghost predicate Possible(m: Machine, h: Happening) {
    match h
    case Begin(temps, temp, ino) => m.todo == [] && Listing(m.dir, temps) && temp.Temp? && ino !in m.dir.files
    case _ => m.todo != []
  }

  function Happen(m: Machine, h: Happening, artifact: Bytes): Machine {
    match h
    case Begin(temps, temp, ino) =>
      Machine(m.dir, StoreOps(m.dir, temps, temp, ino, artifact),
              if Final in m.dir.entries then [] else [Unlink(temp), SyncDir])
    case Continue => if m.todo == [] then m else m.(dir := Perform(m.dir, m.todo[0]), todo := m.todo[1..])
    case Fail(cut) => if m.todo == [] then m else Machine(CutShort(m.dir, m.todo[0], cut), m.cleanup, [])
    case Kill(cut) => if m.todo == [] then m else Machine(CutShort(m.dir, m.todo[0], cut), [], [])
    case PowerLoss(cut, keep) =>
      if m.todo == [] then m else Machine(AfterPowerLoss(CutShort(m.dir, m.todo[0], cut), keep), [], [])
  }

  ghost predicate Good(m: Machine, artifact: Bytes) {
    && Inv(m.dir, artifact)
    && Ready(m.dir, m.todo, artifact)
    && (m.cleanup == [] || (|m.cleanup| == 2 && m.cleanup[0].Unlink? && m.cleanup[0].name.Temp?
                            && m.cleanup[1] == SyncDir))
  }

  lemma CleanupReady(d: Dir, cleanup: seq<Op>, artifact: Bytes)
    requires cleanup == [] || (|cleanup| == 2 && cleanup[0].Unlink? && cleanup[0].name.Temp? && cleanup[1] == SyncDir)
    ensures Ready(d, cleanup, artifact)
  {
    if cleanup != [] {
      hide Ready;
      LastReady(Perform(d, cleanup[0]), SyncDir, artifact);
      ReadyStep(d, cleanup[0], [SyncDir], artifact);
      assert cleanup == [cleanup[0]] + [SyncDir];
    }
  }

  lemma HappenKeeps(m: Machine, h: Happening, artifact: Bytes)
    requires Good(m, artifact) && Possible(m, h)
    ensures Good(Happen(m, h, artifact), artifact)
  {
    hide Inv, PerformAll, StoreOps, AfterPowerLoss, CutShort, Perform, Safe;
    if h.Begin? {
      assert Inv(m.dir, artifact);
      StoreSucceeds(m.dir, h.temps, h.temp, h.ino, artifact);
    } else {
      var op := m.todo[0];
      assert Safe(m.dir, op, artifact);
      match h {
        case Continue => PerformKeeps(m.dir, op, artifact);
        case Fail(cut) =>
          CutShortKeeps(m.dir, op, cut, artifact);
          CleanupReady(CutShort(m.dir, op, cut), m.cleanup, artifact);
        case Kill(cut) =>
          CutShortKeeps(m.dir, op, cut, artifact);
        case PowerLoss(cut, keep) =>
          CutShortKeeps(m.dir, op, cut, artifact);
          PowerLossKeeps(CutShort(m.dir, op, cut), keep, artifact);
      }
    }
  }

  ghost predicate Run(ms: seq<Machine>, hs: seq<Happening>, artifact: Bytes) {
    && |ms| == |hs| + 1 && ms[0] == IDLE
    && forall k :: 0 <= k < |hs| ==> Possible(ms[k], hs[k]) && ms[k + 1] == Happen(ms[k], hs[k], artifact)
  }

  lemma {:induction false} RunIsGood(ms: seq<Machine>, hs: seq<Happening>, k: nat, artifact: Bytes)
    requires Run(ms, hs, artifact) && k < |ms|
    ensures Good(ms[k], artifact)
  {
    if k > 0 {
      RunIsGood(ms, hs, k - 1, artifact);
      HappenKeeps(ms[k - 1], hs[k - 1], artifact);
    }
  }

  /** At every moment of every run, with failures, kills and power losses anywhere: the final name is
      absent or holds the complete artifact, now and after a power loss at this moment; and once the
      process is gone, the next call succeeds with any fresh temporary name. */
  lemma StoreSafety(ms: seq<Machine>, hs: seq<Happening>, k: nat, artifact: Bytes)
    requires Run(ms, hs, artifact) && k < |ms|
    ensures Final in ms[k].dir.entries ==> Complete(ms[k].dir, ms[k].dir.entries[Final], artifact)
    ensures forall keep: Survivors :: var d := AfterPowerLoss(ms[k].dir, keep);
              Final in d.entries ==> Complete(d, d.entries[Final], artifact)
    ensures forall temps, temp: Name, ino ::
              Listing(ms[k].dir, temps) && temp.Temp? && ino !in ms[k].dir.files ==>
                Installed(PerformAll(ms[k].dir, StoreOps(ms[k].dir, temps, temp, ino, artifact)), artifact)
  {
    RunIsGood(ms, hs, k, artifact);
    var d := ms[k].dir;
    forall keep: Survivors
      ensures Inv(AfterPowerLoss(d, keep), artifact)
    {
      PowerLossKeeps(d, keep, artifact);
    }
    hide AfterPowerLoss, StoreOps, PerformAll, Installed, Listing;
    forall temps, temp: Name, ino | Listing(d, temps) && temp.Temp? && ino !in d.files
      ensures Installed(PerformAll(d, StoreOps(d, temps, temp, ino, artifact)), artifact)
    {
      StoreSucceeds(d, temps, temp, ino, artifact);
    }
  }

  /** Which file the final name stands for, now and durably. */
  ghost predicate FinalStays(d: Dir, e: Dir) {
    Final in d.durable ==> Final in e.durable && e.durable[Final] == d.durable[Final]
  }

  lemma StepKeepsFinal(d: Dir, op: Op, artifact: Bytes)
    requires Inv(d, artifact) && Safe(d, op, artifact)
    ensures FinalStays(d, Perform(d, op))
    ensures Final in d.entries ==> Final in Perform(d, op).entries && Perform(d, op).entries[Final] == d.entries[Final]
  {
  }

  /** The final name is still there, for the same file with the same bytes. */
  ghost predicate FinalKept(d: Dir, e: Dir) {
    && Final in d.entries && Final in e.entries && e.entries[Final] == d.entries[Final]
    && d.entries[Final] in d.files && d.entries[Final] in e.files
    && e.files[d.entries[Final]].bytes == d.files[d.entries[Final]].bytes
  }

  /** Nothing ever replaces the final name or its bytes: no step, failure or kill changes them once
      the name is there, and once it is durable no power loss does either. */
  lemma NeverOverwritten(m: Machine, h: Happening, artifact: Bytes)
    requires Good(m, artifact) && Possible(m, h)
    ensures FinalStays(m.dir, Happen(m, h, artifact).dir)
    ensures Final in m.dir.entries && !h.PowerLoss? ==> FinalKept(m.dir, Happen(m, h, artifact).dir)
    ensures Final in m.dir.durable ==> FinalKept(m.dir, Happen(m, h, artifact).dir)
  {
    HappenKeeps(m, h, artifact);
    if !h.Begin? {
      var op := m.todo[0];
      assert Safe(m.dir, op, artifact);
      hide Ready, StoreOps, SharedOnlyWithFinal;
      StepKeepsFinal(m.dir, op, artifact);
    }
  }

  // ---- The operations --------------------------------------------------------

  function LinkNames(d: Dir, ino: nat): set<Name> {
    set n | n in d.entries && d.entries[n] == ino
  }

  /** The link count the file system reports. */
  function Links(d: Dir, ino: nat): nat {
    |LinkNames(d, ino)|
  }

  /** What the recovery accepts: each file has one name, or two of which one is the final name. */
  ghost predicate Recoverable(d: Dir) {
    forall m, n :: m in d.entries && n in d.entries && d.entries[m] == d.entries[n] && m != n ==>
      && (m == Final || n == Final)
      && forall o :: o in d.entries && d.entries[o] == d.entries[m] ==> o == m || o == n
  }

  /** Entries name files that exist. */
  ghost predicate Grounded(d: Dir) {
    forall n :: n in d.entries ==> d.entries[n] in d.files
  }

  /** The recovery and the comparison accept every state of every run. */
  lemma InvRecoverable(d: Dir, artifact: Bytes)
    requires Inv(d, artifact)
    ensures Recoverable(d) && Grounded(d)
    ensures Final in d.entries ==> d.files[d.entries[Final]].bytes == artifact
  {
    forall m, n | m in d.entries && n in d.entries && d.entries[m] == d.entries[n] && m != n
      ensures m == Final || n == Final
      ensures forall o :: o in d.entries && d.entries[o] == d.entries[m] ==> o == m || o == n
    {
      var ino := d.entries[m];
      assert Names(d, m, ino) && Names(d, n, ino);
      forall o | o in d.entries && d.entries[o] == ino
        ensures o == m || o == n
      {
        assert Names(d, o, ino);
      }
    }
    forall n | n in d.entries
      ensures d.entries[n] in d.files
    {
      assert Names(d, n, d.entries[n]);
    }
  }

  predicate FewLinks(d: Dir, name: Name) {
    name in d.entries && (Links(d, d.entries[name]) == 1 || Links(d, d.entries[name]) == 2)
  }

  lemma OneLink(d: Dir, name: Name)
    requires name in d.entries
    ensures Links(d, d.entries[name]) == 1 <==> LinkNames(d, d.entries[name]) == {name}
  {
    var names := LinkNames(d, d.entries[name]);
    assert name in names;
    if |names| == 1 {
      assert |names - {name}| == 0;
      assert names == {name};
    }
  }

  lemma TwoLinks(d: Dir, name: Name)
    requires name in d.entries
    ensures Links(d, d.entries[name]) == 2 <==>
            exists other :: other in d.entries && other != name && LinkNames(d, d.entries[name]) == {name, other}
  {
    var names := LinkNames(d, d.entries[name]);
    assert name in names;
    if |names| == 2 {
      var rest := names - {name};
      assert |rest| == 1;
      var other :| other in rest;
      assert |rest - {other}| == 0;
      assert names == {name, other};
    }
  }

  lemma RecoverDone(d: Dir, temps: seq<Name>)
    requires forall n :: n in temps ==> n.Temp?
    ensures PerformAll(d, RecoverOps(temps)) == Recovered(d, temps)
  {
    NoOpsReady(Recovered(d, temps), []);
    RecoverReady(d, temps, [], []);
    assert RecoverOps(temps) + [] == RecoverOps(temps);
  }

  /** `linked` is the temporary name that shares the final file, if one does. */
  ghost predicate Sharing(d: Dir, linked: Option<Name>) {
    && (linked.Some? ==> linked.value.Temp? && linked.value in d.entries && Final in d.entries
                         && LinkNames(d, d.entries[Final]) == {Final, linked.value})
    && (linked.None? && Final in d.entries ==> LinkNames(d, d.entries[Final]) == {Final})
  }

  lemma UnlinkOne(d: Dir, temps: seq<Name>, i: nat)
    requires i < |temps| && forall j, k :: 0 <= j < k < |temps| ==> temps[j] != temps[k]
    ensures Perform(WithoutTemps(d, temps[..i]), Unlink(temps[i])) == WithoutTemps(d, temps[..i + 1])
    ensures temps[i] in WithoutTemps(d, temps[..i]).entries <==> temps[i] in d.entries
  {
    assert temps[..i + 1] == temps[..i] + [temps[i]];
    assert Perform(WithoutTemps(d, temps[..i]), Unlink(temps[i])).entries == WithoutTemps(d, temps[..i + 1]).entries;
  }

  /** A temporary name the recovery removes has no other name, or shares the final file. */
  ghost predicate Alone(d: Dir, name: Name, linked: Option<Name>) {
    name in d.entries ==>
      forall n :: n in d.entries && d.entries[n] == d.entries[name] && n != name ==> linked == Some(name) && n == Final
  }

  lemma AllAloneRecoverable(d: Dir, temps: seq<Name>, linked: Option<Name>)
    requires Listing(d, temps) && Sharing(d, linked)
    requires forall j :: 0 <= j < |temps| ==> Alone(d, temps[j], linked)
    ensures Recoverable(d)
  {
    forall m, n | m in d.entries && n in d.entries && d.entries[m] == d.entries[n] && m != n
      ensures m == Final || n == Final
      ensures forall o :: o in d.entries && d.entries[o] == d.entries[m] ==> o == m || o == n
    {
      assert m.Temp? ==> m in temps;
      assert n.Temp? ==> n in temps;
      forall o | o in d.entries && d.entries[o] == d.entries[m]
        ensures o == m || o == n
      {
        assert o in LinkNames(d, d.entries[m]) && m in LinkNames(d, d.entries[m]) && n in LinkNames(d, d.entries[m]);
      }
    }
  }

  /** At its turn a temporary name has the link count the recovery asks for exactly when it is alone
      in the sense above. */
  lemma LinkCheck(d: Dir, temps: seq<Name>, i: nat, linked: Option<Name>)
    requires Listing(d, temps) && Sharing(d, linked) && i < |temps|
    requires forall j :: 0 <= j < i ==> Alone(d, temps[j], linked)
    ensures var e := WithoutTemps(d, temps[..i]);
            && temps[i] in e.entries
            && (linked == Some(temps[i]) ==> Links(e, e.entries[temps[i]]) == 2 && Alone(d, temps[i], linked))
            && (linked != Some(temps[i]) ==> (Links(e, e.entries[temps[i]]) == 1 <==> Alone(d, temps[i], linked)))
  {
    var e := WithoutTemps(d, temps[..i]);
    var name := temps[i];
    UnlinkOne(d, temps, i);
    assert name in temps;
    var ino := d.entries[name];
    assert forall n :: n in LinkNames(d, ino) <==> n in d.entries && d.entries[n] == ino;
    assert forall n :: n in LinkNames(e, ino) <==> n in d.entries && n !in temps[..i] && d.entries[n] == ino;
    forall j | 0 <= j < i
      ensures temps[j] in d.entries && (linked != Some(temps[j]) ==> d.entries[temps[j]] != ino)
    {
      assert temps[j] in temps;
      assert Alone(d, temps[j], linked);
    }
    if linked == Some(name) {
      assert Final in LinkNames(d, d.entries[Final]) && name in LinkNames(d, d.entries[Final]);
      assert LinkNames(e, ino) == {Final, name};
    } else {
      forall j | 0 <= j < i
        ensures temps[j] !in LinkNames(d, ino)
      {
        assert Alone(d, temps[j], linked);
      }
      assert LinkNames(e, ino) == LinkNames(d, ino);
      OneLink(e, name);
      if Alone(d, name, linked) {
        assert LinkNames(d, ino) == {name};
      }
    }
  }

  lemma RecoverableAlone(d: Dir, name: Name, linked: Option<Name>)
    requires Recoverable(d) && Sharing(d, linked) && name in d.entries && name.Temp?
    ensures Alone(d, name, linked)
  {
    forall n | n in d.entries && d.entries[n] == d.entries[name] && n != name
      ensures linked == Some(name) && n == Final
    {
      assert n in LinkNames(d, d.entries[Final]) && name in LinkNames(d, d.entries[Final]);
    }
  }

  lemma RecoverableLinks(d: Dir, name: Name)
    requires name in d.entries && Recoverable(d)
    ensures FewLinks(d, name)
  {
    var ino := d.entries[name];
    OneLink(d, name);
    TwoLinks(d, name);
    assert name in LinkNames(d, ino);
    if LinkNames(d, ino) != {name} {
      var other :| other in LinkNames(d, ino) && other != name;
      assert LinkNames(d, ino) == {name, other};
    }
  }

  /** The directory of one corpus, held under its lock. */
  class ArtifactDirectory {
    var dir: Dir

    /** The temporary name that shares the final file, if the link counts of all names allow one. */
    method FindLinked(temps: seq<Name>) returns (ok: bool, linked: Option<Name>)
      requires Listing(dir, temps)
      ensures ok <==>
              || Final !in dir.entries
              || Links(dir, dir.entries[Final]) == 1
              || (Links(dir, dir.entries[Final]) == 2 && forall name :: name in temps ==> FewLinks(dir, name))
      ensures ok ==> Sharing(dir, linked)
    {
      linked := None;
      if Final !in dir.entries {
        return true, None;
      }
      var final := dir.entries[Final];
      OneLink(dir, Final);
      TwoLinks(dir, Final);
      if Links(dir, final) == 2 {
        ghost var other :| other in dir.entries && other != Final && LinkNames(dir, final) == {Final, other};
        assert other in LinkNames(dir, final);
        assert other in temps;
        var matches: seq<Name> := [];
        for i := 0 to |temps|
          invariant matches == if other in temps[..i] then [other] else []
          invariant forall j :: 0 <= j < i ==> FewLinks(dir, temps[j])
        {
          assert temps[i] in temps;
          if !FewLinks(dir, temps[i]) {
            return false, None;
          }
          assert temps[..i + 1] == temps[..i] + [temps[i]];
          assert temps[i] in LinkNames(dir, final) <==> dir.entries[temps[i]] == final;
          if dir.entries[temps[i]] == final {
            matches := matches + [temps[i]];
          }
        }
        assert temps[..|temps|] == temps;
        if |matches| != 1 {
          return false, None;
        }
        linked := Some(matches[0]);
      } else if Links(dir, final) != 1 {
        return false, None;
      }
      ok := true;
    }

    /** Remove leftover temporary names, finishing an install that stopped between link and unlink. */
    method Recover(temps: seq<Name>) returns (ok: bool)
      requires Listing(dir, temps)
      modifies this
      ensures ok <==> Recoverable(old(dir))
      ensures ok ==> dir == PerformAll(old(dir), RecoverOps(temps))
      ensures dir.files == old(dir).files
      ensures Final in old(dir).entries <==> Final in dir.entries
      ensures Final in dir.entries ==> dir.entries[Final] == old(dir).entries[Final]
    {
      hide PerformAll, Sharing, Recoverable, Links, LinkNames, Alone, RecoverOps;
      ghost var before := dir;
      if Recoverable(before) {
        forall name | name in before.entries
          ensures FewLinks(before, name)
        {
          RecoverableLinks(before, name);
        }
      }
      var found, linked := FindLinked(temps);
      if !found {
        return false;
      }
      assert WithoutTemps(before, temps[..0]).entries == before.entries;
      var changed := false;
      for i := 0 to |temps|
        invariant dir == WithoutTemps(before, temps[..i])
        invariant forall j :: 0 <= j < i ==> Alone(before, temps[j], linked)
        invariant changed <==> i > 0
      {
        assert temps[i] in temps;
        LinkCheck(before, temps, i, linked);
        UnlinkOne(before, temps, i);
        if Recoverable(before) { RecoverableAlone(before, temps[i], linked); }
        if !FewLinks(dir, temps[i]) {
          return false;
        }
        if linked != Some(temps[i]) && Links(dir, dir.entries[temps[i]]) != 1 {
          return false;
        }
        dir := Perform(dir, Unlink(temps[i]));
        changed := true;
      }
      AllAloneRecoverable(before, temps, linked);
      RecoverDone(before, temps);
      assert temps[..|temps|] == temps;
      if changed {
        dir := Perform(dir, SyncDir);
      }
      ok := true;
    }

    /** Create, fill and sync a temporary name, link it into place, and drop it. */
    method Install(temp: Name, ino: nat, artifact: Bytes)
      modifies this
      ensures dir == PerformAll(old(dir), InstallOps(temp, ino, artifact))
    {
      hide PerformAll, Perform, InstallOps;
      InstallUnfolds(dir, temp, ino, artifact);
      dir := Perform(dir, Create(temp, ino));
      dir := Perform(dir, WriteFile(ino, artifact));
      dir := Perform(dir, SyncFile(ino));
      dir := Perform(dir, LinkFinal(temp));
      dir := Perform(dir, SyncDir);
      dir := Perform(dir, Unlink(temp));
      dir := Perform(dir, SyncDir);
    }

    /** Store one artifact: refuse a directory whose link counts no interrupted install leaves, or
        that holds other bytes; otherwise end with the artifact in place. */
    method Store(artifact: Bytes, temps: seq<Name>, temp: Name, ino: nat) returns (ok: bool)
      requires Listing(dir, temps) && Grounded(dir) && temp.Temp? && ino !in dir.files
      modifies this
      ensures ok <==> && Recoverable(old(dir))
                      && (Final in old(dir).entries ==> old(dir).files[old(dir).entries[Final]].bytes == artifact)
      ensures ok ==> dir == PerformAll(old(dir), StoreOps(old(dir), temps, temp, ino, artifact))
      ensures Final in old(dir).entries ==>
                && Final in dir.entries && dir.entries[Final] == old(dir).entries[Final]
                && dir.entries[Final] in dir.files
                && dir.files[dir.entries[Final]].bytes == old(dir).files[old(dir).entries[Final]].bytes
    {
      hide PerformAll, Recoverable, InstallOps, RecoverOps, Listing;
      ghost var before := dir;
      ok := Recover(temps);
      if !ok {
        return;
      }
      if Final in dir.entries {
        var final := dir.entries[Final];
        var existing := dir.files[final].bytes;
        ghost var e := dir;
        dir := Perform(dir, SyncFile(final));
        if existing != artifact {
          return false;
        }
        dir := Perform(dir, SyncDir);
        ConfirmUnfolds(e, final);
        PerformAllConcat(before, RecoverOps(temps), [SyncFile(final), SyncDir]);
      } else {
        Install(temp, ino, artifact);
        PerformAllConcat(before, RecoverOps(temps), InstallOps(temp, ino, artifact));
      }
    }
  }

  lemma {:induction false} PerformAllConcat(d: Dir, a: seq<Op>, b: seq<Op>)
    ensures PerformAll(d, a + b) == PerformAll(PerformAll(d, a), b)
    decreases |a|
  {
    if a == [] {
      assert a + b == b;
    } else {
      assert (a + b)[1..] == a[1..] + b;
      PerformAllConcat(Perform(d, a[0]), a[1..], b);
    }
  }

  lemma PerformFirst(d: Dir, op: Op, rest: seq<Op>)
    ensures PerformAll(d, [op] + rest) == PerformAll(Perform(d, op), rest)
    ensures PerformAll(d, [op]) == Perform(d, op)
  {
    assert ([op] + rest)[1..] == rest;
  }

  lemma ConfirmUnfolds(d: Dir, ino: nat)
    ensures PerformAll(d, [SyncFile(ino), SyncDir]) == Perform(Perform(d, SyncFile(ino)), SyncDir)
  {
    hide PerformAll, Perform;
    PerformFirst(d, SyncFile(ino), [SyncDir]);
    PerformFirst(Perform(d, SyncFile(ino)), SyncDir, []);
    assert [SyncFile(ino)] + [SyncDir] == [SyncFile(ino), SyncDir];
  }

  lemma InstallUnfolds(d: Dir, temp: Name, ino: nat, artifact: Bytes)
    ensures var filled := Perform(Perform(Perform(d, Create(temp, ino)), WriteFile(ino, artifact)), SyncFile(ino));
            PerformAll(d, InstallOps(temp, ino, artifact)) ==
            Perform(Perform(Perform(Perform(filled, LinkFinal(temp)), SyncDir), Unlink(temp)), SyncDir)
  {
    hide PerformAll, Perform;
    var d1 := Perform(d, Create(temp, ino));
    var d2 := Perform(d1, WriteFile(ino, artifact));
    var d3 := Perform(d2, SyncFile(ino));
    var d4 := Perform(d3, LinkFinal(temp));
    var d5 := Perform(d4, SyncDir);
    PerformFirst(d, Create(temp, ino), FillOps(temp, ino, artifact));
    PerformFirst(d1, WriteFile(ino, artifact), [SyncFile(ino)] + LinkOps(temp));
    PerformFirst(d2, SyncFile(ino), LinkOps(temp));
    PerformFirst(d3, LinkFinal(temp), [SyncDir] + ([Unlink(temp)] + [SyncDir]));
    PerformFirst(d4, SyncDir, [Unlink(temp)] + [SyncDir]);
    PerformFirst(d5, Unlink(temp), [SyncDir]);
    PerformFirst(Perform(d5, Unlink(temp)), SyncDir, []);
  }
}
