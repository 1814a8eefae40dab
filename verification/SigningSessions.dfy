/** The desk's half of the claim's signature (dapp/btcswap-desk.js nonce, sign; dapp/btcswap.js
    extractT): sessions kept durably, answered again and again but signed once, and the swap secret
    read back from whatever signature is published. Requests, retries and crashes come in any order. */
module SigningSessions {
  import opened Wrappers
  import opened CurveGroup
  import opened Musig2
  import A = AdaptorSignature

  /** What one swap's signing fixes: the curve and hashes, the joint key, the holder's adaptor point,
      the two parties' keys, and the desk's limit. */
  datatype Ctx<!P(==)> = Ctx(
    c: Curve<P>, hb: NonceCoef<P>, h: A.Challenge, keys: Keys<P>, t: P,
    holderPk: P, deskPk: P, d: nat, maxSessions: nat)

  ghost predicate CtxOk<P(!new)>(x: Ctx<P>) {
    && Laws(x.c)
    && x.keys.q != x.c.zero
    && x.t != x.c.zero
  }

  datatype Halves = Halves(holderPsig: nat, deskPsig: nat, sPre: nat)

  /** A stored session: the secret nonce until it signs, then the halves it gave. */
  datatype Stored<!P(==)> = Stored(
    msg: int, holderNonce: PubNonce<P>, deskNonce: PubNonce<P>, sec: Option<SecNonce>, halves: Option<Halves>)

  datatype Reply<!P> = Nonce(pub: PubNonce<P>) | Half(psig: nat) | Refused(status: int)

  function PubOf<P(==)>(c: Curve<P>, k: SecNonce): PubNonce<P>
    requires c.n > 2
  {
    (MulG(c, k.0), MulG(c, k.1))
  }

  /** The first session at or after i for a message and holder nonce, or |ss|. */
  function FindPair<P(==)>(ss: seq<Stored<P>>, msg: int, pn: PubNonce<P>, i: nat): (r: nat)
    requires i <= |ss|
    ensures i <= r <= |ss|
    ensures r < |ss| ==> ss[r].msg == msg && ss[r].holderNonce == pn
    ensures forall j :: i <= j < r ==> !(ss[j].msg == msg && ss[j].holderNonce == pn)
    decreases |ss| - i
  {
    if i == |ss| || (ss[i].msg == msg && ss[i].holderNonce == pn) then i else FindPair(ss, msg, pn, i + 1)
  }

  /** The first session at or after i for a holder nonce, or |ss|. */
  function FindNonce<P(==)>(ss: seq<Stored<P>>, pn: PubNonce<P>, i: nat): (r: nat)
    requires i <= |ss|
    ensures i <= r <= |ss|
    ensures r < |ss| ==> ss[r].holderNonce == pn
    ensures forall j :: i <= j < r ==> ss[j].holderNonce != pn
    decreases |ss| - i
  {
    if i == |ss| || ss[i].holderNonce == pn then i else FindNonce(ss, pn, i + 1)
  }

  function SessionOf<P(==)>(x: Ctx<P>, s: Stored<P>): Result<Session<P>>
    requires x.c.n > 2
  {
    MakeSession(x.c, x.hb, x.h, x.keys, s.holderNonce, s.deskNonce, s.msg, x.t)
  }

  // ----- the two requests

  /** What `nonce` stores and answers; `drawn` is the secret nonce it would draw. */
  function OnNonce<P(==)>(x: Ctx<P>, ss: seq<Stored<P>>, msg: int, pn: PubNonce<P>, signable: bool, drawn: SecNonce)
    : (seq<Stored<P>>, Reply<P>)
    requires x.c.n > 2
  {
    var i := FindPair(ss, msg, pn, 0);
    if i < |ss| then (ss, Nonce(ss[i].deskNonce))
    else if !signable then (ss, Refused(409))
    else if |ss| >= x.maxSessions then (ss, Refused(409))
    else (ss + [Stored(msg, pn, PubOf(x.c, drawn), Some(drawn), None)], Nonce(PubOf(x.c, drawn)))
  }

  /** The session a sign request would sign now, if every check before `partialSign` passes. */
  function Signing<P(==)>(x: Ctx<P>, ss: seq<Stored<P>>, pn: PubNonce<P>, psig: nat, signable: bool): Option<nat>
    requires x.c.n > 2
  {
    var i := FindNonce(ss, pn, 0);
    if i < |ss| && ss[i].halves.None? && ss[i].sec.Some? && signable && SessionOf(x, ss[i]).Ok?
       && PartialVerify(x.c, SessionOf(x, ss[i]).value, psig, ss[i].holderNonce, x.holderPk)
    then Some(i) else None
  }

  /** What `sign` stores and answers. */
  function OnSign<P(==)>(x: Ctx<P>, ss: seq<Stored<P>>, pn: PubNonce<P>, psig: nat, signable: bool)
    : (seq<Stored<P>>, Reply<P>)
    requires x.c.n > 2
  {
    var i := FindNonce(ss, pn, 0);
    if i == |ss| then (ss, Refused(404))
    else if ss[i].halves.Some? then
      (ss, if ss[i].halves.value.holderPsig == psig then Half(ss[i].halves.value.deskPsig) else Refused(409))
    else match Signing(x, ss, pn, psig, signable)
      case None => (ss, if !signable then Refused(409) else if SessionOf(x, ss[i]).Ok? then Refused(400) else Refused(500))
      case Some(_) =>
        var sess := SessionOf(x, ss[i]).value;
        var mine := PartialSign(x.c, sess, ss[i].sec.value, x.d, x.deskPk);
        var sPre := PartialAgg(x.c, sess, psig, mine);
        if !PreVerify(x.c, sess, sPre) then (ss, Refused(500))
        else (ss[i := ss[i].(sec := None, halves := Some(Halves(psig, mine, sPre)))], Half(mine))
  }

  /** The secret read from a published key-path signature: the first stored pre-signature it was
      completed from. */
  function ExtractFrom<P(==)>(x: Ctx<P>, ss: seq<Stored<P>>, sig: Sig): Option<nat>
    requires x.c.n > 2
  {
    if ss == [] then None else
    var here := if ss[0].halves.Some? && SessionOf(x, ss[0]).Ok?
                then ExtractSecret(x.c, SessionOf(x, ss[0]).value, ss[0].halves.value.sPre, sig) else None;
    if here.Some? then here else ExtractFrom(x, ss[1..], sig)
  }

  // ----- the desk as an object

  /** The desk's record of one swap's sessions: what its store holds. */
  class SigningDesk<P(==,!new)> {
    const x: Ctx<P>
    var sessions: seq<Stored<P>>

    constructor (x: Ctx<P>)
      ensures this.x == x && sessions == []
    {
      this.x := x;
      sessions := [];
    }

    method AnswerNonce(msg: int, pn: PubNonce<P>, signable: bool, drawn: SecNonce) returns (reply: Reply<P>)
      requires x.c.n > 2
      modifies this
      ensures (sessions, reply) == OnNonce(x, old(sessions), msg, pn, signable, drawn)
    {
      var i := FindPair(sessions, msg, pn, 0);
      if i < |sessions| {
        return Nonce(sessions[i].deskNonce);
      }
      if !signable || |sessions| >= x.maxSessions {
        return Refused(409);
      }
      sessions := sessions + [Stored(msg, pn, PubOf(x.c, drawn), Some(drawn), None)];
      reply := Nonce(PubOf(x.c, drawn));
    }

    method AnswerSign(pn: PubNonce<P>, psig: nat, signable: bool) returns (reply: Reply<P>)
      requires x.c.n > 2
      modifies this
      ensures (sessions, reply) == OnSign(x, old(sessions), pn, psig, signable)
    {
      var i := FindNonce(sessions, pn, 0);
      if i == |sessions| {
        return Refused(404);
      }
      var s := sessions[i];
      if s.halves.Some? {
        return if s.halves.value.holderPsig == psig then Half(s.halves.value.deskPsig) else Refused(409);
      }
      if !signable {
        return Refused(409);
      }
      var made := SessionOf(x, s);
      if made.Err? {
        return Refused(500);
      }
      if s.sec.None? || !PartialVerify(x.c, made.value, psig, s.holderNonce, x.holderPk) {
        return Refused(400);
      }
      var mine := PartialSign(x.c, made.value, s.sec.value, x.d, x.deskPk);
      var sPre := PartialAgg(x.c, made.value, psig, mine);
      if !PreVerify(x.c, made.value, sPre) {
        return Refused(500);
      }
      sessions := sessions[i := s.(sec := None, halves := Some(Halves(psig, mine, sPre)))];
      reply := Half(mine);
    }

    /** `extractT`: the loop over the stored sessions. */
    method ExtractT(sig: Sig) returns (t: Option<nat>)
      requires x.c.n > 2
      ensures t == ExtractFrom(x, sessions, sig)
    {
      var i := 0;
      while i < |sessions|
        invariant 0 <= i <= |sessions|
        invariant ExtractFrom(x, sessions, sig) == ExtractFrom(x, sessions[i..], sig)
      {
        var s := sessions[i];
        if s.halves.Some? && SessionOf(x, s).Ok? {
          t := ExtractSecret(x.c, SessionOf(x, s).value, s.halves.value.sPre, sig);
          if t.Some? {
            return;
          }
        }
        i := i + 1;
      }
      t := None;
    }
  }

  // ----- whole runs

  /** One evaluation of `partialSign`: which secret nonce went into which message and nonce pair. */
  datatype Use<!P(==)> = Use(sec: SecNonce, msg: int, holderNonce: PubNonce<P>, deskNonce: PubNonce<P>)

  /** The durable sessions, and what an observer of the whole run has seen: every secret nonce ever
      drawn, every use of one, and every session whose half left the desk. */
  datatype Run<!P(==)> = Run(
    sessions: seq<Stored<P>>, drawn: set<SecNonce>, uses: set<Use<P>>, answered: set<Stored<P>>)

  /** Where a crash cuts a request short: not at all, before the save, or after it and before the answer. */
  datatype Crash = NoCrash | BeforeSave | BeforeAnswer

  datatype Request<!P(==)> =
    | AskNonce(msg: int, pn: PubNonce<P>, signable: bool, sec: SecNonce, crash: Crash)
    | AskSign(pn: PubNonce<P>, psig: nat, signable: bool, crash: Crash)

  /** Nonce generation draws fresh randomness each time. */
  predicate Fresh<P(==)>(r: Run<P>, q: Request<P>) {
    q.AskNonce? ==> q.sec !in r.drawn
  }

  function Handle<P(==)>(x: Ctx<P>, r: Run<P>, q: Request<P>): Run<P>
    requires x.c.n > 2
  {
    match q
    case AskNonce(msg, pn, signable, sec, crash) =>
      var ss := OnNonce(x, r.sessions, msg, pn, signable, sec).0;
      r.(sessions := if crash.BeforeSave? then r.sessions else ss, drawn := r.drawn + {sec})
    case AskSign(pn, psig, signable, crash) =>
      var (ss, reply) := OnSign(x, r.sessions, pn, psig, signable);
      var i := FindNonce(r.sessions, pn, 0);
      var uses := match Signing(x, r.sessions, pn, psig, signable)
        case None => r.uses
        case Some(j) => var s := r.sessions[j]; r.uses + {Use(s.sec.value, s.msg, s.holderNonce, s.deskNonce)};
      r.(sessions := if crash.BeforeSave? then r.sessions else ss,
         uses := uses,
         answered := if crash.NoCrash? && reply.Half? then r.answered + {ss[i]} else r.answered)
  }

  function RunAll<P(==)>(x: Ctx<P>, qs: seq<Request<P>>): Run<P>
    requires x.c.n > 2
  {
    if qs == [] then Run([], {}, {}, {}) else Handle(x, RunAll(x, qs[..|qs| - 1]), qs[|qs| - 1])
  }

  ghost predicate AllFresh<P(!new)>(x: Ctx<P>, qs: seq<Request<P>>)
    requires x.c.n > 2
  {
    qs != [] ==>
      var before, q := qs[..|qs| - 1], qs[|qs| - 1];
      AllFresh(x, before) && Fresh(RunAll(x, before), q)
  }

  /** A session is either waiting with its secret, or signed with the secret gone and a pre-signature
      that passed its check. */
  ghost predicate StoredOk<P(!new)>(x: Ctx<P>, s: Stored<P>)
    requires x.c.n > 2
  {
    if s.halves.None? then
      s.sec.Some? && s.deskNonce == PubOf(x.c, s.sec.value)
    else
      && s.sec.None?
      && SessionOf(x, s).Ok?
      && PreVerify(x.c, SessionOf(x, s).value, s.halves.value.sPre)
  }

  /** Each drawn secret belongs to at most one message and nonce pair, wherever it is used or kept. */
  ghost predicate NoncesOk<P(!new)>(r: Run<P>) {
    && (forall u :: u in r.uses ==> u.sec in r.drawn)
    && (forall u, v :: u in r.uses && v in r.uses && u.sec == v.sec ==> u == v)
    && (forall i :: 0 <= i < |r.sessions| && r.sessions[i].sec.Some? ==> r.sessions[i].sec.value in r.drawn)
    && (forall i, u :: 0 <= i < |r.sessions| && u in r.uses && r.sessions[i].sec == Some(u.sec) ==>
          u == Use(u.sec, r.sessions[i].msg, r.sessions[i].holderNonce, r.sessions[i].deskNonce))
    && (forall i, j :: 0 <= i < j < |r.sessions| && r.sessions[i].sec.Some? ==> r.sessions[i].sec != r.sessions[j].sec)
  }

  /** Every half that left the desk is stored. */
  ghost predicate AnswersKept<P(!new)>(ss: seq<Stored<P>>, answered: set<Stored<P>>) {
    forall s :: s in answered ==> s.halves.Some? && s in ss
  }

  ghost predicate Inv<P(!new)>(x: Ctx<P>, r: Run<P>)
    requires x.c.n > 2
  {
    && |r.sessions| <= x.maxSessions
    && (forall i :: 0 <= i < |r.sessions| ==> StoredOk(x, r.sessions[i]))
    && NoncesOk(r)
    && AnswersKept(r.sessions, r.answered)
  }

  /** Sessions keep their places, messages and nonces, and a signed one is kept as it is. */
  ghost predicate Grown<P(!new)>(ss: seq<Stored<P>>, ss': seq<Stored<P>>) {
    && |ss| <= |ss'|
    && (forall i :: 0 <= i < |ss| ==>
          && ss'[i].msg == ss[i].msg && ss'[i].holderNonce == ss[i].holderNonce && ss'[i].deskNonce == ss[i].deskNonce
          && (ss[i].halves.Some? ==> ss'[i] == ss[i]))
  }

  lemma GrownKeepsAnswers<P(!new)>(ss: seq<Stored<P>>, ss': seq<Stored<P>>, answered: set<Stored<P>>)
    requires Grown(ss, ss') && AnswersKept(ss, answered)
    ensures AnswersKept(ss', answered)
  {
    forall s | s in answered ensures s in ss' {
      var i :| 0 <= i < |ss| && ss[i] == s;
      assert ss'[i] == s;
    }
  }

  lemma NonceShape<P(!new)>(x: Ctx<P>, ss: seq<Stored<P>>, msg: int, pn: PubNonce<P>, signable: bool, sec: SecNonce)
    requires x.c.n > 2
    ensures var ss' := OnNonce(x, ss, msg, pn, signable, sec).0;
            && Grown(ss, ss')
            && (ss' == ss || (|ss| < x.maxSessions && ss' == ss + [Stored(msg, pn, PubOf(x.c, sec), Some(sec), None)]))
  {
  }

  lemma DrawKeepsNonces<P(!new)>(r: Run<P>, s: Stored<P>)
    requires NoncesOk(r) && s.sec.Some? && s.sec.value !in r.drawn
    ensures var drawn := r.drawn + {s.sec.value};
            NoncesOk(r.(drawn := drawn)) && NoncesOk(r.(drawn := drawn, sessions := r.sessions + [s]))
  {
  }

  lemma HandleNonceKeeps<P(!new)>(x: Ctx<P>, r: Run<P>, q: Request<P>)
    requires CtxOk(x) && Inv(x, r) && Fresh(r, q) && q.AskNonce?
    ensures Inv(x, Handle(x, r, q))
  {
    NonceShape(x, r.sessions, q.msg, q.pn, q.signable, q.sec);
    DrawKeepsNonces(r, Stored(q.msg, q.pn, PubOf(x.c, q.sec), Some(q.sec), None));
    GrownKeepsAnswers(r.sessions, Handle(x, r, q).sessions, r.answered);
  }

  /** Using a kept secret for its own session, and then forgetting it, keeps the nonces apart. */
  lemma UseKeepsNonces<P(!new)>(r: Run<P>, i: nat, halves: Option<Halves>)
    requires NoncesOk(r) && i < |r.sessions| && r.sessions[i].sec.Some?
    ensures var s := r.sessions[i];
            var used := r.(uses := r.uses + {Use(s.sec.value, s.msg, s.holderNonce, s.deskNonce)});
            NoncesOk(used) && NoncesOk(used.(sessions := r.sessions[i := s.(sec := None, halves := halves)]))
  {
  }

  /** Signing stores a session that is in order. */
  lemma SignedSessionOk<P(!new)>(x: Ctx<P>, ss: seq<Stored<P>>, pn: PubNonce<P>, psig: nat, signable: bool)
    requires CtxOk(x) && forall i :: 0 <= i < |ss| ==> StoredOk(x, ss[i])
    ensures var (ss', reply) := OnSign(x, ss, pn, psig, signable);
            var i := FindNonce(ss, pn, 0);
            && |ss'| == |ss|
            && (forall j :: 0 <= j < |ss| ==> StoredOk(x, ss'[j]) && (j != i ==> ss'[j] == ss[j]))
            && (reply.Half? ==> i < |ss| && ss'[i].halves.Some?)
            && (ss' == ss || (Signing(x, ss, pn, psig, signable) == Some(i) && ss[i].sec.Some? && ss[i].halves.None?
                              && ss' == ss[i := ss[i].(sec := None, halves := ss'[i].halves)]))
            && (Signing(x, ss, pn, psig, signable).Some? ==> Signing(x, ss, pn, psig, signable) == Some(i) && ss[i].sec.Some?)
  {
    var (ss', reply) := OnSign(x, ss, pn, psig, signable);
    var i := FindNonce(ss, pn, 0);
    if ss' != ss {
      assert ss' == ss[i := ss[i].(sec := None, halves := ss'[i].halves)];
      assert SessionOf(x, ss'[i]) == SessionOf(x, ss[i]);
    }
  }

  lemma SignGrows<P(!new)>(x: Ctx<P>, ss: seq<Stored<P>>, pn: PubNonce<P>, psig: nat, signable: bool)
    requires CtxOk(x) && forall i :: 0 <= i < |ss| ==> StoredOk(x, ss[i])
    ensures Grown(ss, OnSign(x, ss, pn, psig, signable).0)
  {
    SignedSessionOk(x, ss, pn, psig, signable);
  }

  lemma SignKeepsNonces<P(!new)>(x: Ctx<P>, r: Run<P>, q: Request<P>)
    requires CtxOk(x) && Inv(x, r) && q.AskSign?
    ensures NoncesOk(Handle(x, r, q))
  {
    var i := FindNonce(r.sessions, q.pn, 0);
    SignedSessionOk(x, r.sessions, q.pn, q.psig, q.signable);
    if Signing(x, r.sessions, q.pn, q.psig, q.signable).Some? {
      UseKeepsNonces(r, i, OnSign(x, r.sessions, q.pn, q.psig, q.signable).0[i].halves);
    }
  }

  lemma HandleSignKeeps<P(!new)>(x: Ctx<P>, r: Run<P>, q: Request<P>)
    requires CtxOk(x) && Inv(x, r) && q.AskSign?
    ensures Inv(x, Handle(x, r, q))
  {
    SignKeepsNonces(x, r, q);
    SignGrows(x, r.sessions, q.pn, q.psig, q.signable);
    SignedSessionOk(x, r.sessions, q.pn, q.psig, q.signable);
    GrownKeepsAnswers(r.sessions, OnSign(x, r.sessions, q.pn, q.psig, q.signable).0, r.answered);
  }

  lemma {:induction false} RunKeepsInv<P(!new)>(x: Ctx<P>, qs: seq<Request<P>>)
    requires CtxOk(x) && AllFresh(x, qs)
    ensures Inv(x, RunAll(x, qs))
  {
    if qs != [] {
      var before, q := qs[..|qs| - 1], qs[|qs| - 1];
      RunKeepsInv(x, before);
      if q.AskNonce? {
        HandleNonceKeeps(x, RunAll(x, before), q);
      } else {
        HandleSignKeeps(x, RunAll(x, before), q);
      }
    }
  }

  /** Over any requests, retries and crashes, a secret nonce goes into one message and nonce pair only;
      a session that signed has its secret wiped; and no swap exceeds its sessions. */
  lemma NonceSignsOnce<P(!new)>(x: Ctx<P>, qs: seq<Request<P>>)
    requires CtxOk(x) && AllFresh(x, qs)
    ensures var r := RunAll(x, qs);
            && (forall u, v :: u in r.uses && v in r.uses && u.sec == v.sec ==> u == v)
            && (forall i :: 0 <= i < |r.sessions| ==> (r.sessions[i].halves.Some? <==> r.sessions[i].sec.None?))
            && |r.sessions| <= x.maxSessions
  {
    RunKeepsInv(x, qs);
  }

  lemma HandleGrows<P(!new)>(x: Ctx<P>, r: Run<P>, q: Request<P>)
    requires CtxOk(x) && Inv(x, r)
    ensures Grown(r.sessions, Handle(x, r, q).sessions)
  {
    match q
    case AskNonce(msg, pn, signable, sec, _) => NonceShape(x, r.sessions, msg, pn, signable, sec);
    case AskSign(pn, psig, signable, _) => SignGrows(x, r.sessions, pn, psig, signable);
  }

  /** Later requests never change what an earlier one was answered from: sessions keep their places,
      messages and nonces, and a signed one is kept as it is. */
  lemma {:induction false} AnswersAreStable<P(!new)>(x: Ctx<P>, qs: seq<Request<P>>, k: nat)
    requires CtxOk(x) && AllFresh(x, qs) && k <= |qs|
    ensures Grown(RunAll(x, qs[..k]).sessions, RunAll(x, qs).sessions)
  {
    if k == |qs| {
      assert qs[..k] == qs;
    } else {
      var before := qs[..|qs| - 1];
      assert before[..k] == qs[..k];
      AnswersAreStable(x, before, k);
      RunKeepsInv(x, before);
      HandleGrows(x, RunAll(x, before), qs[|qs| - 1]);
    }
  }

  lemma {:induction false} PrefixFresh<P(!new)>(x: Ctx<P>, qs: seq<Request<P>>, k: nat)
    requires x.c.n > 2 && AllFresh(x, qs) && k <= |qs|
    ensures AllFresh(x, qs[..k])
  {
    if k == |qs| {
      assert qs[..k] == qs;
    } else {
      assert qs[..|qs| - 1][..k] == qs[..k];
      PrefixFresh(x, qs[..|qs| - 1], k);
    }
  }

  /** A half just given is what every later state answers to the same request. */
  lemma GrownSameHalf<P(!new)>(
    x: Ctx<P>, ss: seq<Stored<P>>, ss': seq<Stored<P>>, pn: PubNonce<P>, psig: nat, signable: bool, later: bool)
    requires CtxOk(x) && (forall i :: 0 <= i < |ss| ==> StoredOk(x, ss[i]))
    requires OnSign(x, ss, pn, psig, signable).1.Half? && Grown(OnSign(x, ss, pn, psig, signable).0, ss')
    ensures OnSign(x, ss', pn, psig, later) == (ss', OnSign(x, ss, pn, psig, signable).1)
  {
    var ss1 := OnSign(x, ss, pn, psig, signable).0;
    SignedSessionOk(x, ss, pn, psig, signable);
    var i := FindNonce(ss, pn, 0);
    assert ss'[i] == ss1[i] && ss1[i].holderNonce == pn;
    assert forall j :: 0 <= j < i ==> ss'[j].holderNonce == ss[j].holderNonce;
    assert FindNonce(ss', pn, 0) == i;
  }

  /** A half given once is given again, unchanged, whenever the same request comes back. */
  lemma RepeatedSignSameHalf<P(!new)>(
    x: Ctx<P>, qs: seq<Request<P>>, k: nat, pn: PubNonce<P>, psig: nat, signable: bool, later: bool)
    requires CtxOk(x) && AllFresh(x, qs) && k < |qs|
    requires qs[k] == AskSign(pn, psig, signable, NoCrash)
    requires OnSign(x, RunAll(x, qs[..k]).sessions, pn, psig, signable).1.Half?
    ensures OnSign(x, RunAll(x, qs).sessions, pn, psig, later).1
            == OnSign(x, RunAll(x, qs[..k]).sessions, pn, psig, signable).1
  {
    assert qs[..k + 1][..k] == qs[..k];
    PrefixFresh(x, qs, k);
    RunKeepsInv(x, qs[..k]);
    AnswersAreStable(x, qs, k + 1);
    GrownSameHalf(x, RunAll(x, qs[..k]).sessions, RunAll(x, qs).sessions, pn, psig, signable, later);
  }

  /** A nonce given once is given again, unchanged, whenever the same request comes back. */
  lemma RepeatedNonceSame<P(!new)>(
    x: Ctx<P>, qs: seq<Request<P>>, k: nat, msg: int, pn: PubNonce<P>, signable: bool, sec: SecNonce, later: bool, sec': SecNonce)
    requires CtxOk(x) && AllFresh(x, qs) && k < |qs|
    requires qs[k] == AskNonce(msg, pn, signable, sec, NoCrash)
    requires OnNonce(x, RunAll(x, qs[..k]).sessions, msg, pn, signable, sec).1.Nonce?
    ensures OnNonce(x, RunAll(x, qs).sessions, msg, pn, later, sec').1
            == OnNonce(x, RunAll(x, qs[..k]).sessions, msg, pn, signable, sec).1
  {
    assert qs[..k + 1][..k] == qs[..k];
    AnswersAreStable(x, qs, k + 1);
    var ss, ss' := RunAll(x, qs[..k]).sessions, RunAll(x, qs).sessions;
    var ss1 := OnNonce(x, ss, msg, pn, signable, sec).0;
    var i := FindPair(ss, msg, pn, 0);
    assert ss1[i].msg == msg && ss1[i].holderNonce == pn;
    assert forall j :: 0 <= j < i ==> ss1[j] == ss[j];
    assert FindPair(ss', msg, pn, 0) == i;
  }

  /** The loop finds the secret whenever one stored, checked pre-signature matches the signature. */
  lemma {:induction false} ExtractFinds<P(!new)>(x: Ctx<P>, ss: seq<Stored<P>>, k: nat, sig: Sig)
    requires CtxOk(x) && k < |ss| && ss[k].halves.Some? && StoredOk(x, ss[k])
    requires sig.0 == x.c.x(SessionOf(x, ss[k]).value.rf)
    requires A.VerifySchnorr(x.c, x.h, x.c.x(x.keys.q), ss[k].msg, sig.0, sig.1)
    ensures var t := ExtractFrom(x, ss, sig);
            t.Some? && MulG(x.c, t.value) == x.t
  {
    if k == 0 {
      SignatureGivesSecret(x.c, x.hb, x.h, x.keys, ss[0].holderNonce, ss[0].deskNonce, ss[0].msg, x.t,
                           ss[0].halves.value.sPre, sig.1);
    } else {
      ExtractFinds(x, ss[1..], k - 1, sig);
    }
  }

  /** Desk safety: after any run of requests and crashes, a valid key-path signature under the nonce of
      any session whose half ever left the desk gives the desk the swap secret. */
  lemma DeskReadsSecret<P(!new)>(x: Ctx<P>, qs: seq<Request<P>>, s: Stored<P>, sig: Sig)
    requires CtxOk(x) && AllFresh(x, qs)
    requires s in RunAll(x, qs).answered && SessionOf(x, s).Ok?
    requires sig.0 == x.c.x(SessionOf(x, s).value.rf)
    requires A.VerifySchnorr(x.c, x.h, x.c.x(x.keys.q), s.msg, sig.0, sig.1)
    ensures var t := ExtractFrom(x, RunAll(x, qs).sessions, sig);
            t.Some? && MulG(x.c, t.value) == x.t
  {
    RunKeepsInv(x, qs);
    var ss := RunAll(x, qs).sessions;
    var k :| 0 <= k < |ss| && ss[k] == s;
    ExtractFinds(x, ss, k, sig);
  }
}
