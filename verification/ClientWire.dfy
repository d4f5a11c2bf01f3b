/** The wire part of the client invariant: every action keeps one message per tag, in flush order. */
module ClientWire {
  import opened SessionSpec
  import opened ClientRun
  import opened ClientInv

  // ---------------------------------------------------------------------------
  // Actions that move no message.
  // ---------------------------------------------------------------------------

  ghost predicate SameWire(s: Sys, u: Sys) { u.c2s == s.c2s && u.pend == s.pend && u.s2c == s.s2c }

  /** Every op whose frame has left keeps its tag and its request, but for the tags in `freed`. */
  ghost predicate KeepsSent(s: Sys, u: Sys, freed: set<Tag>) {
    forall t | t in s.sess.tags && t !in s.unsent && t !in freed ::
      t in u.sess.tags && t !in u.unsent && Request(u.sess, t) == Request(s.sess, t)
  }

  lemma WireFollows(s: Sys, u: Sys, freed: set<Tag>)
    requires WireInv(s) && SameWire(s, u) && KeepsSent(s, u, freed)
    requires forall t | t in freed :: Quiet(s, t)
    ensures WireInv(u)
  {
    forall q | Attributed(s, q) && q.tag !in freed ensures Attributed(u, q) { }
  }

  /** A free tag, and a tag whose frame has not left, have no request and no reply in flight. */
  lemma UnsentIsQuiet(s: Sys, t: Tag)
    requires AllAttributed(s) && (t in s.unsent || t !in s.sess.tags)
    ensures Quiet(s, t)
  {
  }

  // ---------------------------------------------------------------------------
  // Sending.
  // ---------------------------------------------------------------------------

  /** A request that joins the wire: its tag is sent now, and nothing in flight bears it. */
  lemma SendKeepsWire(s: Sys, u: Sys, t: Tag)
    requires WireInv(s) && t in u.sess.tags && t !in u.unsent && Quiet(s, t)
    requires u.c2s == s.c2s + [Request(u.sess, t)] && u.pend == s.pend && u.s2c == s.s2c
    requires KeepsSent(s, u, {})
    requires forall f | f in s.sess.tags && f !in s.unsent && s.sess.tags[f].kind.Flush? ::
        s.sess.tags[f].flushOldtag != t
    ensures WireInv(u)
  {
    var w := u.(c2s := s.c2s);
    WireFollows(s, w, {});
    SendKeepsAttribution(w, u, t);
    SendKeepsOnePerTag(w, u, t);
    forall q | Attributed(s, q) && q.kind.Flush? ensures q.oldtag != t { }
    SendKeepsOrder(w, u, t);
  }

  lemma SendKeepsAttribution(w: Sys, u: Sys, t: Tag)
    requires AllAttributed(w) && t in w.sess.tags && t !in w.unsent
    requires u == w.(c2s := w.c2s + [Request(w.sess, t)])
    ensures AllAttributed(u)
  {
    forall q | Attributed(w, q) ensures Attributed(u, q) { }
    forall i | 0 <= i < |u.c2s| ensures Attributed(u, u.c2s[i]) {
      if i < |w.c2s| { assert Attributed(w, w.c2s[i]); }
    }
  }

  lemma SendKeepsOnePerTag(w: Sys, u: Sys, t: Tag)
    requires OnePerTag(w) && Quiet(w, t) && t in w.sess.tags
    requires u == w.(c2s := w.c2s + [Request(w.sess, t)])
    ensures OnePerTag(u)
  {
  }

  lemma SendKeepsOrder(w: Sys, u: Sys, t: Tag)
    requires FlushOrder(w) && t in w.sess.tags
    requires u == w.(c2s := w.c2s + [Request(w.sess, t)])
    requires forall i | 0 <= i < |w.c2s| && w.c2s[i].kind.Flush? :: w.c2s[i].oldtag != t
    requires forall q | q in w.pend && q.kind.Flush? :: q.oldtag != t
    requires forall j | 0 <= j < |w.s2c| && w.s2c[j].req.kind.Flush? :: w.s2c[j].req.oldtag != t
    ensures FlushOrder(u)
  {
  }

  // ---------------------------------------------------------------------------
  // The server.
  // ---------------------------------------------------------------------------

  lemma TakeKeepsWire(s: Sys)
    requires WireInv(s) && |s.c2s| > 0
    ensures WireInv(DoServerTake(s))
  {
    var u := DoServerTake(s);
    forall q | Attributed(s, q) ensures Attributed(u, q) { }
    assert AllAttributed(u) by {
      forall i | 0 <= i < |u.c2s| ensures Attributed(u, u.c2s[i]) { assert u.c2s[i] == s.c2s[i + 1]; }
    }
    TakeKeepsOnePerTag(s);
    TakeKeepsOrder(s);
  }

  lemma TakeKeepsOnePerTag(s: Sys)
    requires OnePerTag(s) && |s.c2s| > 0
    ensures OnePerTag(DoServerTake(s))
  {
  }

  lemma TakeKeepsOrder(s: Sys)
    requires FlushOrder(s) && |s.c2s| > 0
    requires forall j | 0 <= j < |s.s2c| && IsRflush(s.s2c[j]) :: s.c2s[0].tag != s.s2c[j].req.oldtag
    ensures FlushOrder(DoServerTake(s))
  {
  }

  lemma AnswerKeepsWire(s: Sys, q: Req, rtype: ReplyType, nwqid: nat)
    requires WireInv(s) && q in s.pend && Conforms(q, rtype, nwqid)
    ensures WireInv(DoServerAnswer(s, q, rtype, nwqid))
  {
    var u := DoServerAnswer(s, q, rtype, nwqid);
    forall p | Attributed(s, p) ensures Attributed(u, p) { }
    assert AllAttributed(u) by {
      forall j | 0 <= j < |u.s2c|
        ensures Attributed(u, u.s2c[j].req) && Conforms(u.s2c[j].req, u.s2c[j].rtype, u.s2c[j].nwqid)
      {
        if j < |s.s2c| { assert u.s2c[j] == s.s2c[j]; }
      }
    }
    AnswerKeepsOnePerTag(s, q, rtype, nwqid);
    AnswerKeepsOrder(s, q, rtype, nwqid);
  }

  lemma AnswerKeepsOnePerTag(s: Sys, q: Req, rtype: ReplyType, nwqid: nat)
    requires OnePerTag(s) && q in s.pend
    ensures OnePerTag(DoServerAnswer(s, q, rtype, nwqid))
  {
  }

  lemma AnswerKeepsOrder(s: Sys, q: Req, rtype: ReplyType, nwqid: nat)
    requires FlushOrder(s) && q in s.pend
    ensures FlushOrder(DoServerAnswer(s, q, rtype, nwqid))
  {
  }

  // ---------------------------------------------------------------------------
  // Taking a reply off the wire.
  // ---------------------------------------------------------------------------

  function Popped(s: Sys): Sys
    requires |s.s2c| > 0
  {
    s.(s2c := s.s2c[1..])
  }

  /** Once its reply is read, nothing else in flight bears a tag; once its Rflush is read,
      nothing in flight bears the tag it cancelled. */
  lemma PopKeepsWire(s: Sys)
    requires WireInv(s) && |s.s2c| > 0
    ensures WireInv(Popped(s)) && Quiet(Popped(s), s.s2c[0].req.tag)
    ensures IsRflush(s.s2c[0]) ==> Quiet(Popped(s), s.s2c[0].req.oldtag)
  {
    var u := Popped(s);
    assert forall j | 0 <= j < |u.s2c| :: u.s2c[j] == s.s2c[j + 1];
    forall q | Attributed(s, q) ensures Attributed(u, q) { }
    PopKeepsOnePerTag(s);
    PopKeepsOrder(s);
  }

  lemma PopKeepsOnePerTag(s: Sys)
    requires OnePerTag(s) && |s.s2c| > 0
    ensures OnePerTag(Popped(s)) && Quiet(Popped(s), s.s2c[0].req.tag)
  {
  }

  lemma PopKeepsOrder(s: Sys)
    requires FlushOrder(s) && |s.s2c| > 0
    ensures FlushOrder(Popped(s))
    ensures IsRflush(s.s2c[0]) ==> Quiet(Popped(s), s.s2c[0].req.oldtag)
  {
  }
}
