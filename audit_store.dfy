/**
 * The `auditLogs` collection of the document store, as both webhook routes
 * and the audit logger use it: documents are only ever added.
 */
module AuditStore {
  import opened JsValue

  class AuditLogs {
    /** the stored audit documents, in insertion order */
    var entries: seq<Doc>

    constructor ()
      ensures entries == []
    {
      entries := [];
    }

    /**
     * `collection("auditLogs").add(doc)`. The store's answer is an input:
     * `fault` stands for a write the store rejects, which leaves the
     * collection as it was.
     */
    method Add(doc: Doc, fault: bool) returns (ok: bool)
      modifies this
      ensures ok == !fault
      ensures entries == if ok then old(entries) + [doc] else old(entries)
    {
      ok := !fault;
      if ok {
        entries := entries + [doc];
      }
    }
  }
}
