/** The agent: it replays each batch of events into the storage that APISIX reads. */
module Agent {
  import opened GoTypes
  import opened Apisix
  import opened Diff

  class Agent {
    const marshal: Marshal
    var storage: Store
    var version: string

    constructor (marshal: Marshal)
      ensures this.marshal == marshal && storage == map[] && version == ""
    {
      this.marshal := marshal;
      storage := map[];
      version := "";
    }

    /** `Agent.storeEvents`; the clock is the argument `timestamp`. An empty batch does not change the version. */
    method StoreEvents(events: seq<Event>, timestamp: string)
      modifies this
      ensures storage == Replay(marshal, old(storage), events)
      ensures version == if events == [] then old(version) else timestamp
    {
      if events == [] {
        return;
      }
      for i := 0 to |events|
        invariant storage == Replay(marshal, old(storage), events[..i]) && version == old(version)
      {
        Snoc(events, i);
        match events[i] {
          case DeleteEvent(k, _) =>
            storage := storage - {k};
          case _ =>
            var payload := events[i].payload;
            if marshal(payload).Some? {
              storage := storage[events[i].key := marshal(payload).value];
            }
        }
      }
      assert events[..|events|] == events;
      version := timestamp;
    }
  }
}
