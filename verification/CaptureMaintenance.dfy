/** What the metadata maintenance does in a world where the website, a capture and late acknowledgements go on around
    it: its saved progress stays true, so that a pass it reports complete has left nothing behind. */
module CaptureMaintenance {
  import opened Collections
  import opened DirtyLedger
  import opened DirtyGarbage
  import opened CaptureModel
  import opened CaptureProof

  /** The saved progress is true of the rows. */
  ghost predicate SweptInv(w: World) { Swept(w.source.ledger, w.source.saved, w.source.idb, Names(w.source)) }

  lemma InitialSwept(data: Data, names: seq<StoreName>, idb: bool)
    ensures SweptInv(InitialWorld(data, names, idb))
  {
  }

  lemma BeginKeepsSwept(l: Ledger, p: Progress, idb: bool, names: set<StoreName>)
    requires Swept(l, p, idb, names)
    ensures Swept(Begin(l), p, idb, names)
  {
  }

  lemma WriteKeepsSwept(t: Txn, w: Write, lim: Limits, p: Progress, idb: bool)
    requires Swept(t.ledger, p, idb, NamesOf(t.names)) && t.ledger.control.acknowledged < t.ledger.control.generation
    requires ValidWrite(t, w)
    ensures var t' := ApplyWrite(t, w, lim);
      Swept(t'.ledger, p, idb, NamesOf(t'.names)) && t'.ledger.control.acknowledged < t'.ledger.control.generation
  {
    hide Swept;
    if w.input.operation in {Upsert, Delete} { assert w.input.loc.store in NamesOf(t.names); }
    AppendKeepsSwept(t.ledger, w.input, lim, p, idb, NamesOf(t.names), NamesOf(ApplyWrite(t, w, lim).names));
  }

  lemma {:induction false} WritesKeepSwept(t: Txn, ws: seq<Write>, lim: Limits, p: Progress, idb: bool)
    requires Swept(t.ledger, p, idb, NamesOf(t.names)) && t.ledger.control.acknowledged < t.ledger.control.generation
    requires ValidWrites(t, ws, lim)
    ensures var t' := ApplyWrites(t, ws, lim); Swept(t'.ledger, p, idb, NamesOf(t'.names))
    decreases |ws|
  {
    hide Swept, ApplyWrite, ValidWrite;
    if ws != [] {
      WriteKeepsSwept(t, ws[0], lim, p, idb);
      WritesKeepSwept(ApplyWrite(t, ws[0], lim), ws[1..], lim, p, idb);
    }
  }

  lemma WebsiteKeepsSwept(w: World, ws: seq<Write>, lim: Limits)
    requires SweptInv(w) && Enabled(w, Website(ws), lim) && Current(w).acknowledged <= Current(w).generation
    ensures SweptInv(Next(w, Website(ws), lim))
  {
    assert Names(w.source) == NamesOf(w.source.names);
    BeginKeepsSwept(w.source.ledger, w.source.saved, w.source.idb, Names(w.source));
    WritesKeepSwept(Opened(w), ws, lim, w.source.saved, w.source.idb);
    var t := ApplyWrites(Opened(w), ws, lim);
    var w' := Next(w, Website(ws), lim);
    assert Names(w'.source) == NamesOf(t.names);
    hide Swept, ApplyWrites;
  }

  lemma MaintenanceKeepsSwept(w: World, maxRows: nat, lim: Limits)
    requires SweptInv(w) && 1 <= maxRows <= 64
    ensures SweptInv(Next(w, Maintenance(maxRows), lim))
  {
    CollectKeepsSwept(w.source.ledger, w.source.saved, maxRows, w.source.idb, Names(w.source));
    hide Swept, Collect;
    assert Names(Next(w, Maintenance(maxRows), lim).source) == Names(w.source);
  }

  lemma AdoptKeepsSwept(w: World, v: VersionId, lim: Limits)
    requires SweptInv(w) && Enabled(w, Adopt(v), lim)
    ensures SweptInv(Next(w, Adopt(v), lim))
  {
    AcknowledgeKeepsSwept(w.source.ledger, w.versions[v].cut, w.versions[v].trackingEpoch, w.source.saved, w.source.idb,
                          Names(w.source));
    hide Swept, Acknowledge;
    assert Names(Next(w, Adopt(v), lim).source) == Names(w.source);
  }

  /** The other steps do not touch the source. */
  lemma OthersKeepSource(w: World, s: Step, lim: Limits)
    requires Enabled(w, s, lim) && !SourceStep(s)
    ensures Next(w, s, lim).source == w.source
  {
  }

  lemma StepKeepsSwept(w: World, s: Step, lim: Limits)
    requires Inv(w, lim) && SweptInv(w) && Enabled(w, s, lim)
    ensures SweptInv(Next(w, s, lim))
  {
    if SourceStep(s) {
      match s
      case Website(ws) =>
        assert Current(w).acknowledged <= Current(w).generation;
        hide SweptInv, Next, Enabled, Inv;
        WebsiteKeepsSwept(w, ws, lim);
      case Maintenance(n) => MaintenanceKeepsSwept(w, n, lim);
      case Replace(d, n) =>
      case Adopt(v) => AdoptKeepsSwept(w, v, lim);
    } else {
      OthersKeepSource(w, s, lim);
    }
  }

  lemma {:induction false} RunKeepsSwept(w: World, steps: seq<Step>, lim: Limits, w': World)
    requires Inv(w, lim) && SweptInv(w) && Reaches(w, steps, lim, w')
    ensures SweptInv(w')
    decreases |steps|
  {
    hide Inv, SweptInv, Next, Enabled;
    if steps != [] {
      StepKeeps(w, steps[0], lim);
      StepKeepsSwept(w, steps[0], lim);
      RunKeepsSwept(Next(w, steps[0], lim), steps[1..], lim, w');
    }
  }

  /** In every reachable world, a maintenance transaction that reports its pass complete leaves no marker and no size row
      that is obsolete under the control row it ran with; whatever the website, captures, acknowledgements and
      replacements did while the pass ran. */
  lemma ReachableMaintenanceIsClean(data: Data, names: seq<StoreName>, idb: bool, lim: Limits, steps: seq<Step>, w: World,
                                    maxRows: nat)
    requires StoresExist(data, names) && Reaches(InitialWorld(data, names, idb), steps, lim, w) && maxRows >= 1
    requires Collect(w.source.ledger, w.source.saved, maxRows, w.source.idb, Names(w.source)).complete
    ensures var r := Collect(w.source.ledger, w.source.saved, maxRows, w.source.idb, Names(w.source)).ledger;
      (forall k :: k in r.dirty ==> !ObsoleteMarker(Current(w), k, r.dirty[k]))
      && forall k :: k in r.sizes ==> !ObsoleteSize(Current(w), k, w.source.idb, Names(w.source))
  {
    ReachableSwept(data, names, idb, lim, steps, w);
    hide Swept, Collect, Reaches, ObsoleteMarker, ObsoleteSize;
    CompletedPassIsClean(w.source.ledger, w.source.saved, maxRows, w.source.idb, Names(w.source));
  }

  lemma ReachableSwept(data: Data, names: seq<StoreName>, idb: bool, lim: Limits, steps: seq<Step>, w: World)
    requires StoresExist(data, names) && Reaches(InitialWorld(data, names, idb), steps, lim, w)
    ensures SweptInv(w)
  {
    hide Inv, SweptInv, Reaches;
    InitialInv(data, names, idb, lim);
    InitialSwept(data, names, idb);
    RunKeepsSwept(InitialWorld(data, names, idb), steps, lim, w);
  }

  /** From every reachable world, the maintenance left alone completes a pass that leaves nothing obsolete. */
  lemma ReachableMaintenanceCompletes(data: Data, names: seq<StoreName>, idb: bool, lim: Limits, steps: seq<Step>,
                                      w: World, maxRows: nat)
    returns (calls: nat)
    requires StoresExist(data, names) && Reaches(InitialWorld(data, names, idb), steps, lim, w) && maxRows >= 1
    ensures var s := w.source;
      CleansNext(Repeated(s.ledger, s.saved, maxRows, s.idb, Names(s), calls), maxRows, s.idb, Names(s), Current(w))
  {
    ReachableSwept(data, names, idb, lim, steps, w);
    hide Swept, Collect, Reaches, CleansNext, Repeated;
    calls := MaintenanceCompletes(w.source.ledger, w.source.saved, maxRows, w.source.idb, Names(w.source));
  }
}
