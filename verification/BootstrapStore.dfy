// Saving a position model as a snapshot file's content and seeding another from it.

module BootstrapStore {
  import opened Options
  import opened Text
  import opened Chains
  import opened PositionModel
  import opened PositionRuns
  import opened SnapshotStore
  import opened LocalPositions

  const BOOTSTRAP_SNAPSHOT_VERSION := 2

  datatype DiscoverySource = Logs | Subgraph | Cache

  datatype SnapshotFile = SnapshotFile(
    version: nat, chain: SupportedChain, discoverySource: DiscoverySource, savedAtMs: int, blockNumber: string,
    usersSeeded: nat, positions: seq<ExportedPosition>)

  method BuildSnapshotFromModel(
    model: LocalPositionModel, chain: SupportedChain, source: DiscoverySource, blockNumber: nat, nowMs: int)
    returns (file: SnapshotFile)
    requires model.Valid()
    ensures file.positions == Export(model.State()) && file.usersSeeded == |file.positions|
    ensures ParseAmount(file.blockNumber) == Some(blockNumber)
    ensures file.version == BOOTSTRAP_SNAPSHOT_VERSION && file.savedAtMs == nowMs
    ensures file.chain == chain && file.discoverySource == source
  {
    var positions := model.ExportBootstrapSnapshots();
    ParsePrintAmount(blockNumber);
    file := SnapshotFile(
      BOOTSTRAP_SNAPSHOT_VERSION, chain, source, nowMs, PrintInt(blockNumber), |positions|, positions);
  }

  /** Seeds the model row by row. None where a number does not parse: the rows before it stay seeded. */
  method ApplyToModel(model: LocalPositionModel, file: SnapshotFile) returns (seeded: Option<nat>)
    requires model.Valid()
    modifies model
    ensures model.Valid()
    ensures var block, rows := ParseAmount(file.blockNumber), file.positions;
            if block.None? then seeded.None? && model.State() == old(model.State())
            else match seeded
                 case Some(n) => n == |rows|
                   && Import(model.cfg, old(model.State()), block.value, rows) == Some(model.State())
                 case None => exists i :: 0 <= i < |rows| && ParsePosition(rows[i], block.value).None?
                                && Import(model.cfg, old(model.State()), block.value, rows[..i]) == Some(model.State())
  {
    hide Invariant, AfterSeed, ParsePosition, ParseAmount;
    var block, rows := ParseAmount(file.blockNumber), file.positions;
    if block.None? {
      return None;
    }
    var n := 0;
    for i := 0 to |rows|
      invariant model.Valid() && n == i
      invariant Import(model.cfg, old(model.State()), block.value, rows[..i]) == Some(model.State())
    {
      assert rows[..i + 1][..i] == rows[..i];
      var snapshot := ParsePosition(rows[i], block.value);
      if snapshot.None? {
        return None;
      }
      model.SeedFromOnChainSnapshot(snapshot.value);
      n := n + 1;
    }
    assert rows[..|rows|] == rows;
    return Some(n);
  }
}
