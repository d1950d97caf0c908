/** Steps of the order protocol taken in a row, from a given state. */
module Steps {
  import opened Protocol

  /** The events lead from `s` to `end`, each enabled in its turn. */
  ghost predicate Leads(cfg: Config, s: State, end: State, es: seq<Event>)
    decreases |es|
  {
    if es == [] then s == end
    else Enabled(cfg, s, es[0]) && Leads(cfg, Next(cfg, s, es[0]), end, es[1..])
  }

  lemma One(cfg: Config, s: State, e: Event)
    requires Enabled(cfg, s, e)
    ensures Leads(cfg, s, Next(cfg, s, e), [e])
  {
    assert [e][1..] == [];
  }

  lemma {:induction false} Chain(cfg: Config, s: State, mid: State, end: State, es: seq<Event>, fs: seq<Event>)
    requires Leads(cfg, s, mid, es) && Leads(cfg, mid, end, fs)
    ensures Leads(cfg, s, end, es + fs)
    decreases |es|
  {
    if es == [] {
      assert es + fs == fs;
    } else {
      assert (es + fs)[1..] == es[1..] + fs;
      Chain(cfg, Next(cfg, s, es[0]), mid, end, es[1..], fs);
    }
  }

  /** One more step at the end. */
  lemma Later(cfg: Config, s: State, mid: State, es: seq<Event>, e: Event) returns (end: State, es': seq<Event>)
    requires Leads(cfg, s, mid, es) && Enabled(cfg, mid, e)
    ensures end == Next(cfg, mid, e) && es' == es + [e] && Leads(cfg, s, end, es')
  {
    end, es' := Next(cfg, mid, e), es + [e];
    One(cfg, mid, e);
    Chain(cfg, s, mid, end, es, [e]);
  }
}
