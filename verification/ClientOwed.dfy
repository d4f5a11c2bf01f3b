/**
 No request is lost: whoever waits for an op on the wire is owed an answer that is on its way.
 */
module ClientOwed {
  import opened SessionSpec
  import opened ClientRun
  import opened ClientInv
  import D = ClientDemux
  import T = ClientTheorems

  /** The request of tag `t` is travelling or being served, or its reply is travelling. */
  ghost predicate InFlight(s: Sys, t: Tag) {
    || (exists i :: 0 <= i < |s.c2s| && s.c2s[i].tag == t)
    || (exists q :: q in s.pend && q.tag == t)
    || (exists j :: 0 <= j < |s.s2c| && s.s2c[j].req.tag == t)
  }

  /** The Rflush that cancels tag `t` is travelling. */
  ghost predicate CancelComes(s: Sys,
                              t: Tag) { exists j :: 0 <= j < |s.s2c| && IsRflush(s.s2c[j]) && s.s2c[j].req.oldtag == t }

  ghost predicate Owed(s: Sys, t: Tag) { InFlight(s, t) || CancelComes(s, t) }

  ghost predicate OwedInv(s: Sys) { forall r | r in s.rpcs :: s.rpcs[r].tag !in s.unsent ==> Owed(s, s.rpcs[r].tag) }

  // ---------------------------------------------------------------------------
  // Steps that leave the wire alone, or add to it.
  // ---------------------------------------------------------------------------

  /** The wire only gained requests. */
  ghost predicate MoreSent(s: Sys, u: Sys) { s.c2s <= u.c2s && u.pend == s.pend && u.s2c == s.s2c }

  lemma OwedGrows(s: Sys, u: Sys, t: Tag)
    requires MoreSent(s, u) && Owed(s, t)
    ensures Owed(u, t)
  {
    if i :| 0 <= i < |s.c2s| && s.c2s[i].tag == t { assert u.c2s[i].tag == t; }
  }

  /** The waiters that remain had left their frames on the wire before, or have just done so. */
  ghost predicate FewerWait(s: Sys, u: Sys) {
    forall r | r in u.rpcs && u.rpcs[r].tag !in u.unsent ::
      (r in s.rpcs && s.rpcs[r].tag == u.rpcs[r].tag && s.rpcs[r].tag !in s.unsent) || Owed(u, u.rpcs[r].tag)
  }

  lemma GrowKeeps(s: Sys, u: Sys)
    requires OwedInv(s) && MoreSent(s, u) && FewerWait(s, u)
    ensures OwedInv(u)
  {
    forall r | r in u.rpcs && u.rpcs[r].tag !in u.unsent
      ensures Owed(u, u.rpcs[r].tag)
    {
      if !Owed(u, u.rpcs[r].tag) { OwedGrows(s, u, s.rpcs[r].tag); }
    }
  }

  lemma BuildOwes(s: Sys, b: Build, t: Tag, async: bool)
    requires OwedInv(s)
    ensures OwedInv(DoBuild(s, b, t, async))
  {
    GrowKeeps(s, DoBuild(s, b, t, async));
  }

  lemma PushOwes(s: Sys, t: Tag)
    requires OwedInv(s) && t in s.sess.tags
    ensures OwedInv(DoPush(s, t))
  {
    var u := DoPush(s, t);
    assert u.c2s[|s.c2s|].tag == t;
    assert Owed(u, t);
    GrowKeeps(s, u);
  }

  lemma TakeBackOwes(s: Sys, t: Tag)
    requires OwedInv(s) && AllRegistered(s) && t in s.sess.tags
    ensures OwedInv(DoTakeBack(s, t))
  {
    var u := DoTakeBack(s, t);
    forall r | r in u.rpcs
      ensures r in s.rpcs && s.rpcs[r] == u.rpcs[r] && s.rpcs[r].tag != t
    {
      assert Registered(s, r);
    }
    GrowKeeps(s, u);
  }

  lemma RetractOwes(s: Sys, r: nat)
    requires OwedInv(s) && AllRegistered(s) && Enabled(s, RetractFlush(r))
    ensures OwedInv(DoRetractFlush(s, r))
  {
    var u := DoRetractFlush(s, r);
    assert Registered(s, r);
    forall x | x in u.rpcs ensures u.rpcs[x].tag != s.sess.tags[s.rpcs[r].tag].flushTag { assert Registered(s, x); }
    GrowKeeps(s, u);
  }

  lemma LeaveOwes(s: Sys, r: nat, how: Flushing)
    requires OwedInv(s) && Enabled(s, Leave(r, how))
    ensures OwedInv(DoLeave(s, r, how))
  {
    GrowKeeps(s, DoLeave(s, r, how));
  }

  // ---------------------------------------------------------------------------
  // The server and the demultiplexer.
  // ---------------------------------------------------------------------------

  lemma TakeOwes(s: Sys)
    requires OwedInv(s) && |s.c2s| > 0
    ensures OwedInv(DoServerTake(s))
  {
    var u := DoServerTake(s);
    forall t | Owed(s, t)
      ensures Owed(u, t)
    {
      if i :| 0 <= i < |s.c2s| && s.c2s[i].tag == t {
        if i == 0 { assert s.c2s[0] in u.pend; } else { assert u.c2s[i - 1].tag == t; }
      } else if q :| q in s.pend && q.tag == t {
        assert q in u.pend;
      } else if j :| 0 <= j < |s.s2c| && s.s2c[j].req.tag == t {
        assert u.s2c[j].req.tag == t;
      }
    }
  }

  /** An answered request becomes a reply; one cancelled by an Rflush is owed that Rflush. */
  lemma AnswerOwes(s: Sys, q: Req, rtype: ReplyType, nwqid: nat)
    requires OwedInv(s) && q in s.pend
    ensures OwedInv(DoServerAnswer(s, q, rtype, nwqid))
  {
    var u := DoServerAnswer(s, q, rtype, nwqid);
    var n := |s.s2c|;
    assert u.s2c[n] == Rep(q, rtype, nwqid);
    forall t | Owed(s, t)
      ensures Owed(u, t)
    {
      if i :| 0 <= i < |s.c2s| && s.c2s[i].tag == t {
        assert u.c2s[i].tag == t;
      } else if x :| x in s.pend && x.tag == t {
        if x == q {
          assert u.s2c[n].req.tag == t;
        } else if x in CancelledBy(s, q, rtype) {
          assert IsRflush(u.s2c[n]) && u.s2c[n].req.oldtag == t;
        } else {
          assert x in u.pend;
        }
      } else if j :| 0 <= j < |s.s2c| && s.s2c[j].req.tag == t {
        assert u.s2c[j].req.tag == t;
      } else {
        var j :| 0 <= j < |s.s2c| && IsRflush(s.s2c[j]) && s.s2c[j].req.oldtag == t;
        assert u.s2c[j] == s.s2c[j];
      }
    }
  }

  /** Reading the head ends the op it answers or cancels, and nobody else loses anything. */
  lemma DemuxOwes(s: Sys)
    requires SysInv(s) && OwedInv(s) && |s.s2c| > 0
    ensures OwedInv(DoDemux(s))
  {
    D.HeadViewed(s);
    D.DemuxOutcome(s);
    var u := DoDemux(s);
    forall r | r in u.rpcs && u.rpcs[r].tag !in u.unsent
      ensures Owed(u, u.rpcs[r].tag)
    {
      StillWaits(s, u, r);
      assert Registered(s, r);
      T.DemuxEnds(s, u, r);
      T.SameOpSameTag(s, r);
      KeptTag(s, u, r);
      PopOwes(s, u, s.rpcs[r].tag);
    }
  }

  lemma StillWaits(s: Sys, u: Sys, r: nat)
    requires D.HeadView(s) && u == D.Outcome(s) && r in u.rpcs
    ensures r in s.rpcs && s.rpcs[r] == u.rpcs[r]
    ensures u.c2s == s.c2s && u.pend == s.pend && u.s2c == s.s2c[1..]
  {
  }

  lemma KeptTag(s: Sys, u: Sys, r: nat)
    requires D.HeadView(s) && u == D.Outcome(s) && Registered(s, r) && s.rpcs[r].tag !in u.unsent
    ensures s.rpcs[r].tag !in s.unsent
  {
  }

  lemma PopOwes(s: Sys, u: Sys, t: Tag)
    requires |s.s2c| > 0 && u.c2s == s.c2s && u.pend == s.pend && u.s2c == s.s2c[1..] && Owed(s, t)
    requires s.s2c[0].req.tag != t && !(IsRflush(s.s2c[0]) && s.s2c[0].req.oldtag == t)
    ensures Owed(u, t)
  {
    if j :| 0 <= j < |s.s2c| && s.s2c[j].req.tag == t {
      assert u.s2c[j - 1].req.tag == t;
    } else if j :| 0 <= j < |s.s2c| && IsRflush(s.s2c[j]) && s.s2c[j].req.oldtag == t {
      assert u.s2c[j - 1] == s.s2c[j];
    }
  }

  // ---------------------------------------------------------------------------
  // Every run.
  // ---------------------------------------------------------------------------

  lemma OtherOwes(s: Sys, a: Action)
    requires OwedInv(s) && Enabled(s, a)
    requires (a.BuildOwnerless? || a.Refuse? || a.StageFlush? || a.MarkDead? || a.DeadReturn?)
    ensures OwedInv(Do(s, a))
  {
    GrowKeeps(s, Do(s, a));
  }

  lemma StepOwes(s: Sys, a: Action)
    requires SysInv(s) && OwedInv(s) && Enabled(s, a)
    ensures OwedInv(Do(s, a))
  {
    if a.BuildOp? {
      BuildOwes(s, a.b, a.t, a.async);
    } else if a.Push? {
      PushOwes(s, a.t);
    } else if a.TakeBack? {
      TakeBackOwes(s, a.t);
    } else if a.RetractFlush? {
      RetractOwes(s, a.r);
    } else if a.Leave? {
      LeaveOwes(s, a.r, a.how);
    } else if a.ServerTake? {
      TakeOwes(s);
    } else if a.ServerAnswer? {
      AnswerOwes(s, a.q, a.rtype, a.nwqid);
    } else if a.Demux? {
      DemuxOwes(s);
    } else {
      OtherOwes(s, a);
    }
  }

  /** Over every run, an rpc whose frame is on the wire is owed its end: its request or reply is in
      flight, or the Rflush that cancels it is. */
  lemma {:induction false} WaitersAreOwed(run: seq<Sys>, acts: seq<Action>, i: nat)
    requires IsRun(run, acts) && i < |run|
    ensures OwedInv(run[i])
  {
    if i > 0 {
      WaitersAreOwed(run, acts, i - 1);
      T.RunInv(run, acts, i - 1);
      assert Follows(run, acts, i - 1);
      StepOwes(run[i - 1], acts[i - 1]);
    }
  }
}
