/** The batch endpoint, item by item. */
module BatchController {
  import opened Wrappers
  import opened Faults
  import opened Events
  import opened Machine
  import opened IngestService
  import opened Batch
  import Keys

  class Controller {
    const service: Service

    constructor (service: Service)
      ensures this.service == service
    {
      this.service := service;
    }

    ghost function Flatten(faults: seq<seq<Fault>>): seq<Fault> {
      if faults == [] then [] else Flatten(faults[..|faults| - 1]) + faults[|faults| - 1]
    }

    lemma Flattened(log: seq<Fault>, faults: seq<seq<Fault>>, calls: seq<Fault>)
      ensures log + Flatten(faults) + calls == log + Flatten(faults + [calls])
    {
    }

    /** One result per item: the batch is the fold of its items, and nothing else reached the stores. */
    method IngestBatch(items: seq<Text>) returns (results: seq<ItemResult>, ghost faults: seq<seq<Fault>>)
      requires service.Valid() && service.Configured()
      modifies service.Repr()
      ensures |faults| == |items|
      ensures service.oracle.log == old(service.oracle.log) + Flatten(faults)
      ensures BatchWalk(service.cfg, old(service.State()), items, faults) == Some((service.State(), results))
    {
      ghost var w, log := service.State(), service.oracle.log;
      results, faults := [], [];
      var i := 0;
      while i < |items|
        invariant i <= |items| && |faults| == i
        invariant service.oracle.log == log + Flatten(faults)
        invariant BatchWalk(service.cfg, w, items[..i], faults) == Some((service.State(), results))
      {
        ghost var v := service.State();
        var result, calls := IngestItem(items[i]);
        BatchSnoc(service.cfg, w, items[..i], faults, v, results, items[i], calls, service.State(), result);
        Flattened(log, faults, calls);
        assert items[..i + 1] == items[..i] + [items[i]];
        results, faults := results + [result], faults + [calls];
        i := i + 1;
      }
      assert items[..i] == items;
    }

    /** What the service's configuration reads in an item. */
    method DecodeItem(item: Text) returns (decoded: Option<Envelope>)
      requires service.Configured()
      ensures decoded.None? ==> service.cfg.read(item).None?
      ensures decoded.Some? ==> IsUuid(decoded.value.eventId)
      ensures decoded.Some? ==> service.cfg.read(item) == Some(Keys.RequestOf(service.hashing, decoded.value))
    {
      decoded := DecodeEnvelope(item);
    }

    /** Decode, ingest, and report; an item that does not decode costs no store call. */
    method IngestItem(item: Text) returns (result: ItemResult, ghost calls: seq<Fault>)
      requires service.Valid() && service.Configured()
      modifies service.Repr()
      ensures service.oracle.log == old(service.oracle.log) + calls
      ensures ItemWalk(service.cfg, old(service.State()), item, calls) == Some((service.State(), result))
    {
      var decoded := DecodeItem(item);
      service.Untouched();
      if decoded.None? {
        return ItemResult(None, ItemFailed), [];
      }
      result, calls := IngestDecoded(item, decoded.value);
    }

    method IngestDecoded(item: Text, e: Envelope) returns (result: ItemResult, ghost calls: seq<Fault>)
      requires service.Valid() && IsUuid(e.eventId)
      requires service.cfg.read(item) == Some(Keys.RequestOf(service.hashing, e))
      modifies service.Repr()
      ensures service.oracle.log == old(service.oracle.log) + calls
      ensures ItemWalk(service.cfg, old(service.State()), item, calls) == Some((service.State(), result))
    {
      ghost var w, log := service.State(), service.oracle.log;
      var outcome := service.Ingest(e);
      ItemRan(service.cfg, w, item, Keys.RequestOf(service.hashing, e), log, service.State(), outcome,
              service.oracle.log);
      calls := service.oracle.log[|log|..];
      return ItemResult(Some(e.eventId), StatusOf(outcome)), calls;
    }
  }
}
