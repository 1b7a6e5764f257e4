/** Selection and dispatch together: what the selection guarantees about the drivers that handleOrder pushes. */
module DispatchSelection {
  import opened Model
  import opened Contact
  import C = Candidates
  import D = DispatchTraces
  import R = DispatchResults

  function AsCandidates(picks: seq<C.Pick>, token: C.Driver -> string): seq<D.Candidate> {
    seq(|picks|, n requires 0 <= n < |picks| => D.Candidate(picks[n].driver.id, token(picks[n].driver), picks[n].minutes))
  }

  ghost predicate PushesEligible(t: seq<Event>, k: nat, selection: C.Order, all: seq<C.Driver>, env: C.Env)
    requires k < |t| && t[k].Pushed?
  {
    exists d | d in all :: d.id == t[k].driver && C.Eligible(selection, env, d)
  }

  /** With the candidates of one selection, a whole handleOrder pushes no driver twice, and pushes only drivers that passed every
      filter of the selection. */
  lemma SelectedDriversArePushedOnce(selection: C.Order, all: seq<C.Driver>, world: C.Env, short: seq<C.Driver>,
                                     chosen: seq<C.DriverRoute>, picks: seq<C.Pick>, token: C.Driver -> string,
                                     order: D.Order, env: D.HandleEnv)
    requires C.Selects(selection, all, world, short, chosen, Ok(picks)) && C.UniqueIds(all)
    requires D.ValidEnv(env) && env.candidates == Ok(AsCandidates(picks, token))
    ensures var t := D.HandleTrace(order, env);
            && R.NoDriverTwice(t)
            && forall k: nat | k < |t| && t[k].Pushed? :: PushesEligible(t, k, selection, all, world)
  {
    var t := D.HandleTrace(order, env);
    C.PicksAreDistinctAndOrdered(selection, all, world, short, chosen, picks);
    assert R.Distinct(env.candidates.value);
    R.EveryPushIsGuarded(order, env);
    C.ShortlistIsEligible(selection, all, world, short);
    forall k: nat | k < |t| && t[k].Pushed? ensures PushesEligible(t, k, selection, all, world) {
      var n: nat :| R.PushOf(t, k, env.candidates.value, n);
      assert picks[n].driver in short;
    }
  }
}
