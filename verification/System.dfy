/** Any number of requests and retention runs over the two stores, in any interleaving. */
module System {
  import opened Faults
  import opened Requests
  import opened Machine

  datatype System = System(world: World, procs: map<nat, Process>)

  const EMPTY_SYSTEM := System(EMPTY_WORLD, map[])

  datatype Event =
    | Arrive(id: nat, q: Request)
    | Schedule(id: nat, through: nat, limit: int)
    | Advance(id: nat, fault: Fault)
    | Die(id: nat)

  /** The effect of one event; arriving under an id that is in use kills its former owner. */
  function Apply(cfg: Config, s: System, e: Event): System {
    match e
    case Arrive(id, q) => s.(procs := s.procs[id := Ingesting(q, Begin(q))])
    case Schedule(id, through, limit) => s.(procs := s.procs[id := Retaining(through, limit, ReadingFloor)])
    case Advance(id, fault) =>
      if id !in s.procs then s
      else
        var (w, p) := Step(cfg, s.world, s.procs[id], fault);
        System(w, s.procs[id := p])
    case Die(id) => s.(procs := s.procs - {id})
  }

  function Run(cfg: Config, s: System, events: seq<Event>): System {
    if events == [] then s
    else Apply(cfg, Run(cfg, s, events[..|events| - 1]), events[|events| - 1])
  }

  ghost predicate WellFormedEvents(cfg: Config, events: seq<Event>) {
    forall e | e in events && e.Arrive? :: WellFormed(cfg, e.q)
  }

  lemma RunThen(cfg: Config, s: System, events: seq<Event>, e: Event)
    ensures Run(cfg, s, events + [e]) == Apply(cfg, Run(cfg, s, events), e)
  {
  }

  lemma RunFirst(cfg: Config, s: System, e: Event, events: seq<Event>)
    ensures Run(cfg, s, [e] + events) == Run(cfg, Apply(cfg, s, e), events)
  {
    assert [e][..0] == [];
    assert Run(cfg, s, []) == s;
    RunAppend(cfg, s, [e], events);
  }

  lemma {:induction false} RunAppend(cfg: Config, s: System, a: seq<Event>, b: seq<Event>)
    ensures Run(cfg, s, a + b) == Run(cfg, Run(cfg, s, a), b)
  {
    if b == [] {
      assert a + b == a;
    } else {
      RunAppend(cfg, s, a, b[..|b| - 1]);
      assert (a + b)[..|a + b| - 1] == a + b[..|b| - 1];
    }
  }
}
