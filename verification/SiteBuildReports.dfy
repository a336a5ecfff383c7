/** Success reports for different requests: the order in which they arrive makes no difference. */
module SiteBuildReports {
  import opened Common
  import opened SiteBuilds

  datatype Report = Report(id: nat, actual: Option<nat>, at: int)

  function Deliver(s: Site, rs: seq<Report>): Site {
    if rs == [] then s else Receive(Deliver(s, rs[..|rs| - 1]), rs[|rs| - 1]).0
  }

  function Receive(s: Site, p: Report): (Site, Reply) {
    RecordSuccess(s, p.id, p.actual, p.at)
  }

  /** One report to a request. */
  predicate Distinct(rs: seq<Report>) {
    forall i, k | 0 <= i < k < |rs| :: rs[i].id != rs[k].id
  }

  /** Whether the report is the first success of its request, and so recorded. */
  predicate Recorded(s: Site, p: Report) {
    && p.id < |s.requests| && p.actual.Some? && s.requests[p.id].target <= p.actual.value
    && (s.requests[p.id].status in {Pending, Running} || (s.requests[p.id].status == Superseded && s.requests[p.id].completedAt.None?))
  }

  function RecordedRow(r: Request, p: Report): Request {
    r.(status := if r.status == Superseded then Superseded else Successful,
       actual := p.actual, completedAt := Some(p.at), leaseExpiresAt := None)
  }

  lemma ReceiveEffect(s: Site, p: Report)
    ensures var (s', _) := Receive(s, p);
            if Recorded(s, p) then
              s' == s.(deployed := Some(Max(if s.deployed.Some? then s.deployed.value else 0, p.actual.value)),
                       lastBuildAt := Some(p.at), requests := s.requests[p.id := RecordedRow(s.requests[p.id], p)])
            else s' == s
  {
  }

  // ---------- the outcome, told without an order ----------

  /** Every row is what its own report, if any, makes of it. */
  ghost predicate RowsSettled(s: Site, rs: seq<Report>, t: Site) {
    && |t.requests| == |s.requests|
    && (forall p | p in rs && Recorded(s, p) :: t.requests[p.id] == RecordedRow(s.requests[p.id], p))
    && (forall i | 0 <= i < |s.requests| && (forall p | p in rs && Recorded(s, p) :: p.id != i) :: t.requests[i] == s.requests[i])
  }

  /** The deployed revision is the greatest of the old one and the recorded ones. */
  ghost predicate DeployedSettled(s: Site, rs: seq<Report>, t: Site) {
    && (s.deployed.Some? ==> t.deployed.Some? && s.deployed.value <= t.deployed.value)
    && (forall p | p in rs && Recorded(s, p) :: t.deployed.Some? && p.actual.value <= t.deployed.value)
    && (t.deployed == s.deployed || exists p :: p in rs && Recorded(s, p) && p.actual == t.deployed)
  }

  /** The time of the last build is that of the last recorded report. */
  function LastRecorded(s: Site, rs: seq<Report>): Option<int> {
    if rs == [] then s.lastBuildAt
    else if Recorded(s, rs[|rs| - 1]) then Some(rs[|rs| - 1].at)
    else LastRecorded(s, rs[..|rs| - 1])
  }

  ghost predicate Settled(s: Site, rs: seq<Report>, t: Site) {
    && t.content == s.content && t.enabled == s.enabled && t.lastBuildAt == LastRecorded(s, rs)
    && RowsSettled(s, rs, t) && DeployedSettled(s, rs, t)
  }

  lemma InitDistinct(rs: seq<Report>)
    requires rs != [] && Distinct(rs)
    ensures Distinct(rs[..|rs| - 1]) && forall p | p in rs[..|rs| - 1] :: p.id != rs[|rs| - 1].id
  {
    var earlier, last := rs[..|rs| - 1], |rs| - 1;
    forall p | p in earlier ensures p.id != rs[last].id {
      var i :| 0 <= i < |earlier| && earlier[i] == p;
      assert rs[i].id != rs[last].id;
    }
  }

  // Its request is untouched by the others' reports, so a report meets the row it would have met first.
  lemma SameRow(s: Site, rs: seq<Report>, t: Site, p: Report)
    requires RowsSettled(s, rs, t) && forall q | q in rs :: q.id != p.id
    ensures p.id < |s.requests| ==> p.id < |t.requests| && t.requests[p.id] == s.requests[p.id]
    ensures Recorded(t, p) == Recorded(s, p) && Receive(t, p).1 == Receive(s, p).1
  {
  }

  lemma RowsNext(s: Site, rs: seq<Report>, t: Site, p: Report)
    requires RowsSettled(s, rs, t) && forall q | q in rs :: q.id != p.id
    ensures RowsSettled(s, rs + [p], Receive(t, p).0)
  {
    SameRow(s, rs, t, p);
    ReceiveEffect(t, p);
    var t' := Receive(t, p).0;
    forall q | q in rs + [p] && Recorded(s, q) ensures t'.requests[q.id] == RecordedRow(s.requests[q.id], q) {
      if q != p { assert q in rs; }
    }
    forall i | 0 <= i < |s.requests| && (forall q | q in rs + [p] && Recorded(s, q) :: q.id != i) ensures t'.requests[i] == s.requests[i] {
      forall q | q in rs && Recorded(s, q) ensures q.id != i { assert q in rs + [p]; }
      assert p in rs + [p];
    }
  }

  lemma DeployedNext(s: Site, rs: seq<Report>, t: Site, p: Report)
    requires DeployedSettled(s, rs, t) && Recorded(t, p) == Recorded(s, p)
    ensures DeployedSettled(s, rs + [p], Receive(t, p).0)
  {
    ReceiveEffect(t, p);
    var t' := Receive(t, p).0;
    assert p in rs + [p];
    forall q | q in rs + [p] && Recorded(s, q) ensures t'.deployed.Some? && q.actual.value <= t'.deployed.value {
      if q != p { assert q in rs; }
    }
    if t'.deployed != s.deployed && t'.deployed == t.deployed {
      var q :| q in rs && Recorded(s, q) && q.actual == t.deployed;
      assert q in rs + [p];
    }
  }

  /** What a list of reports makes of a site, and what each of them is answered. */
  lemma {:induction false} Delivered(s: Site, rs: seq<Report>)
    requires Distinct(rs)
    ensures Settled(s, rs, Deliver(s, rs))
  {
    if rs != [] {
      var earlier, p := rs[..|rs| - 1], rs[|rs| - 1];
      InitDistinct(rs);
      Delivered(s, earlier);
      var t := Deliver(s, earlier);
      SameRow(s, earlier, t, p);
      RowsNext(s, earlier, t, p);
      DeployedNext(s, earlier, t, p);
      ReceiveEffect(t, p);
      assert earlier + [p] == rs;
    }
  }

  lemma RowsAgree(s: Site, rs: seq<Report>, t: Site, qs: seq<Report>, u: Site)
    requires (forall p :: p in rs <==> p in qs) && RowsSettled(s, rs, t) && RowsSettled(s, qs, u)
    ensures t.requests == u.requests
  {
    forall i | 0 <= i < |s.requests| ensures t.requests[i] == u.requests[i] {
      if p :| p in rs && Recorded(s, p) && p.id == i {
        assert t.requests[p.id] == u.requests[p.id];
      } else {
        assert t.requests[i] == s.requests[i];
      }
    }
  }

  lemma DeployedAgrees(s: Site, rs: seq<Report>, t: Site, qs: seq<Report>, u: Site)
    requires (forall p :: p in rs <==> p in qs) && DeployedSettled(s, rs, t) && DeployedSettled(s, qs, u)
    ensures t.deployed == u.deployed
  {
  }

  lemma {:induction false} DeliverPrefix(s: Site, rs: seq<Report>, k: nat)
    requires k < |rs| && Distinct(rs)
    ensures Receive(Deliver(s, rs[..k]), rs[k]).1 == Receive(s, rs[k]).1
  {
    var sofar := rs[..k];
    assert rs[..k + 1][..k] == sofar && Distinct(rs[..k + 1]);
    InitDistinct(rs[..k + 1]);
    Delivered(s, sofar);
    SameRow(s, sofar, Deliver(s, sofar), rs[k]);
  }

  /**
    Any two orders of the same reports: every report is answered as if it had come first, and
    the site ends up the same but for the time of its last build, which is that of the last
    report recorded.
   */
  lemma SuccessesInAnyOrder(s: Site, rs: seq<Report>, qs: seq<Report>)
    requires Distinct(rs) && Distinct(qs) && forall p :: p in rs <==> p in qs
    ensures Deliver(s, qs) == Deliver(s, rs).(lastBuildAt := LastRecorded(s, qs))
    ensures forall k | 0 <= k < |rs| :: Receive(Deliver(s, rs[..k]), rs[k]).1 == Receive(s, rs[k]).1
    ensures forall k | 0 <= k < |qs| :: Receive(Deliver(s, qs[..k]), qs[k]).1 == Receive(s, qs[k]).1
  {
    Delivered(s, rs);
    Delivered(s, qs);
    RowsAgree(s, rs, Deliver(s, rs), qs, Deliver(s, qs));
    DeployedAgrees(s, rs, Deliver(s, rs), qs, Deliver(s, qs));
    forall k | 0 <= k < |rs| ensures Receive(Deliver(s, rs[..k]), rs[k]).1 == Receive(s, rs[k]).1 { DeliverPrefix(s, rs, k); }
    forall k | 0 <= k < |qs| ensures Receive(Deliver(s, qs[..k]), qs[k]).1 == Receive(s, qs[k]).1 { DeliverPrefix(s, qs, k); }
  }
}
