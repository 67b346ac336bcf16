/** A script that passes the row limit and is committed. */
module StoreExamples {
  import opened Outcomes
  import opened Config
  import opened Script
  import opened Store
  import opened StoreLaws
  import opened Examples

  // Whatever the limit, some database empties public.t twice with row counts
  // that pass it together, and the script is committed.
  lemma OverflowIsCommitted(e: Engine, cfg: ConnectionConfig, c: Conn, w: Weather) returns (engine: Engine)
    requires LetsDelete(cfg) && 2 <= cfg.maxScriptStatements && ByteLength(DELETIONS) <= cfg.maxScriptBytes
    requires 0 < cfg.maxScriptAffectedRows <= MAX_INT64 && w.begin && w.searchPath && w.commit
    ensures Int64Counts(engine)
    ensures
      && Fold(engine, StatementsOf(cfg, DELETIONS), 0, c.db).Some?
      && ScriptRows(engine, cfg, c, DELETIONS) > cfg.maxScriptAffectedRows
      && ScriptStep(engine, cfg, c, w, DELETIONS).1.RanScript?
  {
    DeletionsAreAccepted(cfg, cfg.maxScriptStatements);
    engine := OverflowPassesLimit(e, cfg, c, w, DELETIONS, 0, 1);
  }
}
