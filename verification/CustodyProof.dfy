/** Every step keeps `Custody`: a blob is answered for by the row or by exactly one task. */
module CustodyProof {
  import opened Wrappers
  import opened KycTypes
  import opened LiveChallenge
  import opened VerificationRow
  import opened KycProtocol
  import opened KycInvariant

  /** What a step of `actor` leaves to the other tasks. */
  ghost predicate Respects(s: State, s': State, actor: Tid) {
    && (forall t :: t != actor ==> (t in s.tasks <==> t in s'.tasks))
    && (forall t :: t != actor && t in s.tasks ==> s'.tasks[t] == s.tasks[t])
    && (forall k :: k in s.h.put ==> k in s'.h.put && s'.h.put[k] == s.h.put[k])
    && (forall k :: k in s.h.fate ==> k in s'.h.fate && (!s.h.fate[k].InFlight? ==> !s'.h.fate[k].InFlight?))
    && (forall k :: k in s.h.fate && s.h.fate[k].InFlight? && s.h.fate[k].tid != actor ==> s'.h.fate[k] == s.h.fate[k])
    && (forall k :: k in s.h.fate && s.h.fate[k].Doomed? && s.h.fate[k].tid != actor ==> s'.h.fate[k] == s.h.fate[k])
    && (forall k :: k in s.blobs && k in s.h.fate && s.h.fate[k].InFlight? && s.h.fate[k].tid != actor ==>
        k in s'.blobs)
    && (forall k :: k in s'.blobs && k in s.h.fate ==> k in s.blobs && s'.blobs[k] == s.blobs[k])
    && (!Active(s.row) ==> !Active(s'.row) && Refs(s'.row) <= Refs(s.row))
  }

  lemma OthersKeepCustody(config: Config, s: State, s': State, actor: Tid, t: Tid)
    requires Respects(s, s', actor) && t != actor && t in s.tasks
    requires TaskCustody(config, s, t, s.tasks[t])
    ensures TaskCustody(config, s', t, s'.tasks[t])
  {
    assert s'.tasks[t] == s.tasks[t];
  }

  ghost predicate Ledger(s: State) {
    && s.h.fate.Keys == s.h.put.Keys
    && forall k :: k in s.blobs ==> k in s.h.put && s.blobs[k] == s.h.put[k]
  }

  ghost predicate AllKept(config: Config, s: State) {
    forall k :: k in s.blobs ==> Kept(config, s, k)
  }

  lemma CustodyStep(config: Config, s: State, s': State, actor: Tid)
    requires forall t :: t in s.tasks ==> TaskCustody(config, s, t, s.tasks[t])
    requires Respects(s, s', actor)
    requires Ledger(s') && RowCustody(s'.row, s'.h) && AllKept(config, s')
    requires actor in s'.tasks ==> TaskCustody(config, s', actor, s'.tasks[actor])
    ensures Custody(config, s')
  {
    forall t | t in s'.tasks ensures TaskCustody(config, s', t, s'.tasks[t]) {
      if t != actor {
        OthersKeepCustody(config, s, s', actor, t);
      }
    }
  }

  /** Tasks that are not responsible for any blob. */
  predicate Idle(task: Task) {
    !task.Uploaded? && !task.Cleaning? && !task.Committing?
  }

  /** Steps that only change what their own task remembers. */
  lemma CustodyLocal(config: Config, s: State, tid: Tid, s': State)
    requires Custody(config, s)
    requires s'.row == s.row && s'.blobs == s.blobs && s'.h.fate == s.h.fate && s'.h.put == s.h.put
    requires forall t :: t != tid ==> (t in s.tasks <==> t in s'.tasks) && (t in s.tasks ==> s'.tasks[t] == s.tasks[t])
    requires tid in s'.tasks ==> TaskCustody(config, s', tid, s'.tasks[tid])
    requires tid in s.tasks ==> Idle(s.tasks[tid])
    ensures Custody(config, s')
  {
    forall k | k in s'.blobs ensures Kept(config, s', k) {
      assert Kept(config, s, k);
    }
    CustodyStep(config, s, s', tid);
  }

  /** Steps that only change the row, and the task that takes them. */
  lemma CustodyRow(config: Config, s: State, tid: Tid, s': State)
    requires Custody(config, s)
    requires s'.blobs == s.blobs && s'.h.fate == s.h.fate && s'.h.put == s.h.put
    requires forall t :: t != tid ==> (t in s.tasks <==> t in s'.tasks) && (t in s.tasks ==> s'.tasks[t] == s.tasks[t])
    requires tid in s.tasks ==> Idle(s.tasks[tid])
    requires Refs(s'.row) <= Refs(s.row) && RowCustody(s'.row, s.h)
    requires !Active(s.row) ==> !Active(s'.row)
    requires forall k :: k in Refs(s.row) && k !in Refs(s'.row) ==> k !in s.blobs
    requires tid in s'.tasks ==> TaskCustody(config, s', tid, s'.tasks[tid])
    ensures Custody(config, s')
  {
    forall k | k in s'.blobs ensures Kept(config, s', k) {
      assert Kept(config, s, k);
    }
    CustodyStep(config, s, s', tid);
  }

  /** Steps that only delete blobs the row no longer needs. */
  lemma CustodyDelete(config: Config, s: State, tid: Tid, s': State, keys: set<Key>)
    requires Custody(config, s)
    requires s'.row == s.row && s'.h == s.h && s'.blobs == s.blobs - keys
    requires forall t :: t != tid ==> (t in s.tasks <==> t in s'.tasks) && (t in s.tasks ==> s'.tasks[t] == s.tasks[t])
    requires tid in s.tasks && !s.tasks[tid].Uploaded? && !s.tasks[tid].Committing?
    requires forall k :: k in keys ==> Settled(s.h, k)
    requires s.tasks[tid].Cleaning? ==> forall k :: k in s.tasks[tid].keys && k !in keys ==>
             tid in s'.tasks && Holds(config, s'.tasks[tid], k)
    requires tid in s'.tasks ==> TaskCustody(config, s', tid, s'.tasks[tid])
    ensures Custody(config, s')
  {
    forall k | k in s'.blobs ensures Kept(config, s', k) {
      assert Kept(config, s, k);
    }
    CustodyStep(config, s, s', tid);
  }

  // ---------------------------------------------------------------- steps that move keys

  lemma PutRespects(s: State, tid: Tid, key: Key, content: Digest, task: Task)
    requires Ledger(s) && RowCustody(s.row, s.h) && key !in s.h.fate
    ensures var s' := Become(Put(s, tid, key, content), tid, task);
            Respects(s, s', tid) && Ledger(s') && RowCustody(s'.row, s'.h) && s'.tasks[tid] == task
  {
  }

  lemma PutKept(config: Config, s: State, tid: Tid, key: Key, content: Digest, task: Task)
    requires AllKept(config, s) && tid in s.tasks && Idle(s.tasks[tid]) && key !in s.h.fate
    requires Holds(config, task, key)
    ensures AllKept(config, Become(Put(s, tid, key, content), tid, task))
  {
    hide Refs, Active, NewKey;
    var s' := Become(Put(s, tid, key, content), tid, task);
    forall k | k in s'.blobs ensures Kept(config, s', k) {
      if k != key {
        assert Kept(config, s, k);
      }
    }
  }

  /** A put under a fresh key by a task that holds nothing yet. */
  lemma CustodyPut(config: Config, s: State, tid: Tid, key: Key, content: Digest, task: Task)
    requires Custody(config, s) && tid in s.tasks && Idle(s.tasks[tid]) && key !in s.h.fate
    requires Holds(config, task, key)
    requires var s' := Become(Put(s, tid, key, content), tid, task); TaskCustody(config, s', tid, task)
    ensures Custody(config, Become(Put(s, tid, key, content), tid, task))
  {
    hide Respects, RowCustody, Become, Put, TaskCustody;
    var s' := Become(Put(s, tid, key, content), tid, task);
    PutRespects(s, tid, key, content, task);
    PutKept(config, s, tid, key, content, task);
    CustodyStep(config, s, s', tid);
  }

  /** `tid` gives its keys away: `linked` to the row, `doomed` to its own clean-up. */
  ghost predicate Moved(s: State, s': State, tid: Tid, linked: set<Key>, kind: Kind, doomed: set<Key>) {
    && s'.blobs == s.blobs && s'.h.put == s.h.put && s'.h.fate.Keys == s.h.fate.Keys
    && (forall k :: k in s.h.fate ==>
          s'.h.fate[k] == if k in doomed then Doomed(tid) else if k in linked then Linked(kind) else s.h.fate[k])
    && (forall t :: t != tid ==> (t in s.tasks <==> t in s'.tasks) && (t in s.tasks ==> s'.tasks[t] == s.tasks[t]))
    && (doomed == {} ==> tid !in s'.tasks)
    && (doomed != {} ==> tid in s'.tasks && s'.tasks[tid] == Cleaning(doomed))
  }

  /** The keys that move were `tid`'s own, or the row drops them. */
  ghost predicate MayMove(config: Config, s: State, row': Row, tid: Tid, linked: set<Key>, doomed: set<Key>) {
    && tid in s.tasks
    && (forall k :: k in linked ==> Holds(config, s.tasks[tid], k))
    && (forall k :: k in doomed ==> Holds(config, s.tasks[tid], k) || (k in Refs(s.row) && k !in Refs(row')))
    && (forall k :: Holds(config, s.tasks[tid], k) ==> k in linked || k in doomed)
    && (forall k :: k in Refs(s.row) ==> k in Refs(row') || k in doomed)
    && (row' == s.row || Active(s.row))
    && linked <= Refs(row')
  }

  ghost predicate Moves(config: Config, s: State, s': State, tid: Tid, linked: set<Key>, kind: Kind, doomed: set<Key>) {
    && Moved(s, s', tid, linked, kind, doomed)
    && MayMove(config, s, s'.row, tid, linked, doomed)
    && RowCustody(s'.row, s'.h)
  }

  lemma MoveRespects(config: Config, s: State, s': State, tid: Tid, linked: set<Key>, kind: Kind, doomed: set<Key>)
    requires tid in s.tasks && TaskCustody(config, s, tid, s.tasks[tid])
    requires RowCustody(s.row, s.h) && !s.tasks[tid].Cleaning?
    requires Moves(config, s, s', tid, linked, kind, doomed)
    ensures Respects(s, s', tid)
    ensures tid in s'.tasks ==> TaskCustody(config, s', tid, s'.tasks[tid])
  {
    forall k | k in linked || k in doomed
      ensures k in s.h.fate && (s.h.fate[k] == InFlight(tid) || s.h.fate[k].Linked?)
    {
    }
  }

  lemma KeptMove(config: Config, s: State, s': State, tid: Tid, linked: set<Key>, kind: Kind, doomed: set<Key>, k: Key)
    requires Kept(config, s, k)
    requires Moves(config, s, s', tid, linked, kind, doomed)
    ensures Kept(config, s', k)
  {
    hide Refs;
    hide Active;
    if k !in doomed && k !in linked && !s.h.fate[k].Linked? && !s.h.fate[k].Lost? {
      assert s.h.fate[k].tid != tid;
    }
  }

  lemma CustodyMove(config: Config, s: State, s': State, tid: Tid, linked: set<Key>, kind: Kind, doomed: set<Key>)
    requires Custody(config, s) && tid in s.tasks && !s.tasks[tid].Cleaning?
    requires Moves(config, s, s', tid, linked, kind, doomed)
    ensures Custody(config, s')
  {
    hide Refs;
    hide Active;
    MoveRespects(config, s, s', tid, linked, kind, doomed);
    forall k | k in s'.blobs ensures Kept(config, s', k) {
      KeptMove(config, s, s', tid, linked, kind, doomed, k);
    }
    CustodyStep(config, s, s', tid);
  }

  // ---------------------------------------------------------------- the protocol's steps

  /** `CleanUp`, point by point. */
  lemma CleanUpEffect(s: State, tid: Tid, keys: set<Key>)
    requires keys <= s.h.fate.Keys
    ensures var s' := CleanUp(s, tid, keys);
            && s'.row == s.row && s'.blobs == s.blobs && s'.h.put == s.h.put && s'.h.fate.Keys == s.h.fate.Keys
            && (forall k :: k in s.h.fate ==> s'.h.fate[k] == if k in keys then Doomed(tid) else s.h.fate[k])
            && s'.tasks == if keys == {} then s.tasks - {tid} else s.tasks[tid := Cleaning(keys)]
  {
    assert CleanUp(s, tid, keys).h.fate.Keys == s.h.fate.Keys;
  }

  /** A task whose transaction is refused keeps its keys, to delete them. */
  lemma AbortMoves(config: Config, s: State, tid: Tid, keys: set<Key>)
    requires tid in s.tasks && (s.tasks[tid].Uploaded? || s.tasks[tid].Committing?)
    requires RowCustody(s.row, s.h) && TaskCustody(config, s, tid, s.tasks[tid])
    requires forall k :: Holds(config, s.tasks[tid], k) <==> k in keys
    ensures Moves(config, s, CleanUp(s, tid, keys), tid, {}, Selfie, keys)
  {
    assert forall k :: k in keys ==> k in s.h.fate;
    CleanUpEffect(s, tid, keys);
    hide Refs, NewKey, CleanUp;
  }

  lemma UploadMoved(config: Config, s: State, tid: Tid)
    requires tid in s.tasks && s.tasks[tid].Uploaded?
    requires RowCustody(s.row, s.h) && TaskCustody(config, s, tid, s.tasks[tid])
    requires UploadTx(s.row, s.tasks[tid].kind, s.tasks[tid].key).Ok?
    ensures var (kind, key) := (s.tasks[tid].kind, s.tasks[tid].key);
            var (row, replaced) := UploadTx(s.row, kind, key).value;
            Moved(s, DoCommitUpload(s, tid), tid, {key}, kind, KeysOf(replaced)) && DoCommitUpload(s, tid).row == row
  {
    var (kind, key) := (s.tasks[tid].kind, s.tasks[tid].key);
    var (row, replaced) := UploadTx(s.row, kind, key).value;
    assert kind in s.row.evidence ==> BelongsTo(s.h, s.row.evidence[kind], kind);
    var linked := s.(row := row, h := s.h.(fate := s.h.fate[key := Linked(kind)]));
    CleanUpEffect(linked, tid, KeysOf(replaced));
    hide CleanUp;
  }

  lemma UploadMayMove(config: Config, s: State, tid: Tid)
    requires tid in s.tasks && s.tasks[tid].Uploaded?
    requires RowCustody(s.row, s.h) && TaskCustody(config, s, tid, s.tasks[tid])
    requires s.tasks[tid].kind == Selfie ==> s.row.live.NoLive?
    requires UploadTx(s.row, s.tasks[tid].kind, s.tasks[tid].key).Ok?
    ensures var (kind, key) := (s.tasks[tid].kind, s.tasks[tid].key);
            var (row, replaced) := UploadTx(s.row, kind, key).value;
            MayMove(config, s, row, tid, {key}, KeysOf(replaced))
  {
    UploadRefs(s.row, s.h, s.tasks[tid].kind, s.tasks[tid].key);
    assert s.tasks[tid].kind in s.row.evidence ==> s.row.evidence[s.tasks[tid].kind] in Refs(s.row);
    hide Refs;
  }

  lemma UploadRowCustody(config: Config, s: State, tid: Tid)
    requires tid in s.tasks && s.tasks[tid].Uploaded?
    requires RowCustody(s.row, s.h) && TaskCustody(config, s, tid, s.tasks[tid])
    requires s.tasks[tid].kind == Selfie ==> s.row.live.NoLive?
    requires UploadTx(s.row, s.tasks[tid].kind, s.tasks[tid].key).Ok?
    ensures RowCustody(DoCommitUpload(s, tid).row, DoCommitUpload(s, tid).h)
  {
  }

  lemma CustodyCommitUpload(config: Config, s: State, tid: Tid)
    requires Custody(config, s) && tid in s.tasks && s.tasks[tid].Uploaded?
    requires s.tasks[tid].kind == Selfie ==> s.row.live.NoLive?
    ensures Custody(config, DoCommitUpload(s, tid))
  {
    hide Moved, MayMove, Refs;
    var Uploaded(kind, key) := s.tasks[tid];
    if UploadTx(s.row, kind, key).Ok? {
      hide DoCommitUpload, UploadTx;
      UploadMoved(config, s, tid);
      UploadMayMove(config, s, tid);
      UploadRowCustody(config, s, tid);
      CustodyMove(config, s, DoCommitUpload(s, tid), tid, {key}, kind, KeysOf(UploadTx(s.row, kind, key).value.1));
    } else {
      hide UploadTx, CleanUp;
      AbortMoves(config, s, tid, {key});
      CustodyMove(config, s, CleanUp(s, tid, {key}), tid, {}, Selfie, {key});
    }
  }

  /** A new upload replaces exactly the key of its kind. */
  lemma UploadRefs(row: Row, h: History, kind: Kind, key: Key)
    requires RowCustody(row, h) && key in h.fate && h.fate[key].InFlight?
    requires UploadTx(row, kind, key).Ok?
    requires kind == Selfie ==> row.live.NoLive?
    ensures var (row', replaced) := UploadTx(row, kind, key).value;
            && (forall k :: k in Refs(row') <==> k == key || (k in Refs(row) && k !in KeysOf(replaced)))
            && (forall k :: k in KeysOf(replaced) ==> k != key)
  {
    var (row', replaced) := UploadTx(row, kind, key).value;
    forall k | k in Refs(row) && k !in KeysOf(replaced) ensures k in Refs(row') {
      if k !in row.live.SelfieKeys() {
        var other :| other in row.evidence && row.evidence[other] == k;
        assert row'.evidence[other] == k;
      }
    }
    assert row'.evidence[kind] == key;
    forall k | k in Refs(row') && k != key ensures k in Refs(row) && k !in KeysOf(replaced) {
      if k !in row.live.SelfieKeys() {
        var other :| other in row'.evidence && row'.evidence[other] == k;
        assert row.evidence[other] == k;
        assert BelongsTo(h, k, other);
      } else {
        assert BelongsTo(h, k, Selfie);
      }
    }
  }

  lemma StartMoved(s: State, tid: Tid, at: Time)
    requires tid in s.tasks && s.tasks[tid].Starting?
    requires RowCustody(s.row, s.h)
    requires StartTx(s.row, s.tasks[tid].challenge, at).Ok?
    ensures var (row, stale) := StartTx(s.row, s.tasks[tid].challenge, at).value;
            Moved(s, DoCommitStart(s, tid, at), tid, {}, Selfie, stale) && DoCommitStart(s, tid, at).row == row
  {
    var c := s.tasks[tid].challenge;
    var (row, stale) := StartTx(s.row, c, at).value;
    assert Selfie in s.row.evidence ==> BelongsTo(s.h, s.row.evidence[Selfie], Selfie);
    CleanUpEffect(s.(row := row,
                     h := s.h.(tokens := s.h.tokens[c.token := None],
                               started := Some((c.token, c.deadline - CHALLENGE_LIFETIME)),
                               run := [])), tid, stale);
    hide CleanUp;
  }

  lemma StartMayMove(config: Config, s: State, tid: Tid, at: Time)
    requires tid in s.tasks && s.tasks[tid].Starting? && s.tasks[tid].challenge.selfieKey.None?
    requires RowCustody(s.row, s.h)
    requires StartTx(s.row, s.tasks[tid].challenge, at).Ok?
    ensures var (row, stale) := StartTx(s.row, s.tasks[tid].challenge, at).value;
            MayMove(config, s, row, tid, {}, stale)
  {
    StartRefs(s.row, s.h, s.tasks[tid].challenge, at);
    hide Refs;
  }

  lemma StartRowCustody(s: State, tid: Tid, at: Time)
    requires tid in s.tasks && s.tasks[tid].Starting? && s.tasks[tid].challenge.selfieKey.None?
    requires RowCustody(s.row, s.h)
    requires StartTx(s.row, s.tasks[tid].challenge, at).Ok?
    ensures RowCustody(DoCommitStart(s, tid, at).row, DoCommitStart(s, tid, at).h)
  {
    StartRefs(s.row, s.h, s.tasks[tid].challenge, at);
  }

  lemma CustodyCommitStart(config: Config, s: State, tid: Tid, at: Time)
    requires Custody(config, s) && tid in s.tasks && s.tasks[tid].Starting?
    requires s.tasks[tid].challenge.selfieKey.None?
    ensures Custody(config, DoCommitStart(s, tid, at))
  {
    if StartTx(s.row, s.tasks[tid].challenge, at).Ok? {
      hide DoCommitStart, StartTx, Moved, MayMove, Refs;
      StartMoved(s, tid, at);
      StartMayMove(config, s, tid, at);
      StartRowCustody(s, tid, at);
      CustodyMove(config, s, DoCommitStart(s, tid, at), tid, {}, Selfie,
                  StartTx(s.row, s.tasks[tid].challenge, at).value.1);
    } else {
      CustodyLocal(config, s, tid, DoCommitStart(s, tid, at));
    }
  }

  /** A new challenge drops exactly the selfies of its predecessor. */
  lemma StartRefs(row: Row, h: History, c: Challenge, at: Time)
    requires RowCustody(row, h) && StartTx(row, c, at).Ok? && c.selfieKey.None?
    ensures var (row', stale) := StartTx(row, c, at).value;
            && (forall k :: k in Refs(row') <==> k in Refs(row) && k !in stale)
            && (forall k :: k in stale ==> k in Refs(row) && BelongsTo(h, k, Selfie))
            && (forall kind :: kind in row'.evidence ==> row'.evidence[kind] !in stale)
  {
    var (row', stale) := StartTx(row, c, at).value;
    forall kind | kind in row'.evidence ensures kind in row.evidence && row'.evidence[kind] == row.evidence[kind] {
    }
    forall k | k in Refs(row) && k !in stale ensures k in Refs(row') {
      var kind :| kind in row.evidence && row.evidence[kind] == k;
      assert kind in row'.evidence && row'.evidence[kind] == k;
    }
    forall k | k in Refs(row') ensures k in Refs(row) && k !in stale {
      var kind :| kind in row'.evidence && row'.evidence[kind] == k;
      assert row.evidence[kind] == k && BelongsTo(h, k, kind);
    }
  }

  /** The frame can only commit on the document it was screened on, which has no evidence selfie yet. */
  ghost predicate FrameOnBase(config: Config, s: State, tid: Tid, at: Time)
    requires tid in s.tasks && s.tasks[tid].Committing?
  {
    FrameCommits(config, s, tid, at) ==>
      s.row.live == Running(s.tasks[tid].base) && Selfie !in s.row.evidence
  }

  predicate FrameCommits(config: Config, s: State, tid: Tid, at: Time)
    requires tid in s.tasks && s.tasks[tid].Committing?
  {
    FrameTx(s.row, s.tasks[tid].frame.token, Advance(config.live, s.tasks[tid].base, s.tasks[tid].frame), at).Ok?
  }

  lemma FrameMoved(config: Config, s: State, tid: Tid, at: Time)
    requires tid in s.tasks && s.tasks[tid].Committing?
    requires TaskCustody(config, s, tid, s.tasks[tid]) && FrameCommits(config, s, tid, at)
    ensures Moved(s, DoCommitFrame(config, s, tid, at), tid, FrameKeys(config, s.tasks[tid]), Selfie, {})
  {
    hide Refs, Advance, NewKey;
    assert forall k :: k in FrameKeys(config, s.tasks[tid]) ==> k in s.h.fate;
    assert DoCommitFrame(config, s, tid, at).h.fate.Keys == s.h.fate.Keys;
  }

  lemma FrameMayMove(config: Config, s: State, tid: Tid, at: Time)
    requires tid in s.tasks && s.tasks[tid].Committing?
    requires RowCustody(s.row, s.h) && TaskCustody(config, s, tid, s.tasks[tid]) && FrameOnBase(config, s, tid, at)
    requires FrameCommits(config, s, tid, at)
    ensures MayMove(config, s, DoCommitFrame(config, s, tid, at).row, tid, FrameKeys(config, s.tasks[tid]), {})
  {
    FrameRefs(config, s, tid, at);
    hide Refs, Advance, NewKey;
  }

  lemma CustodyCommitFrame(config: Config, s: State, tid: Tid, at: Time)
    requires Custody(config, s) && tid in s.tasks && s.tasks[tid].Committing?
    requires FrameOnBase(config, s, tid, at)
    ensures Custody(config, DoCommitFrame(config, s, tid, at))
  {
    hide Moved, MayMove, Refs, Advance, NewKey;
    var stored := FrameKeys(config, s.tasks[tid]);
    if FrameCommits(config, s, tid, at) {
      hide DoCommitFrame;
      FrameMoved(config, s, tid, at);
      FrameMayMove(config, s, tid, at);
      FrameRefs(config, s, tid, at);
      CustodyMove(config, s, DoCommitFrame(config, s, tid, at), tid, stored, Selfie, {});
    } else {
      hide FrameTx, CleanUp;
      AbortMoves(config, s, tid, stored);
      CustodyMove(config, s, CleanUp(s, tid, stored), tid, {}, Selfie, stored);
    }
  }

  /** A committed frame adds exactly the selfie it stored. */
  lemma FrameRefs(config: Config, s: State, tid: Tid, at: Time)
    requires RowCustody(s.row, s.h) && tid in s.tasks && s.tasks[tid].Committing?
    requires TaskCustody(config, s, tid, s.tasks[tid])
    requires s.row.live == Running(s.tasks[tid].base) && Selfie !in s.row.evidence
    requires FrameCommits(config, s, tid, at)
    ensures var s' := DoCommitFrame(config, s, tid, at);
            && (forall k :: k in Refs(s'.row) <==> k in Refs(s.row) || k in FrameKeys(config, s.tasks[tid]))
            && RowCustody(s'.row, s'.h)
  {
    var Committing(base, f) := s.tasks[tid];
    var s' := DoCommitFrame(config, s, tid, at);
    var stored := FrameKeys(config, s.tasks[tid]);
    assert s'.row.live.SelfieKeys() == base.SelfieKey() + stored;
    forall k | k in Refs(s.row) ensures k in Refs(s'.row) {
      if k !in s.row.live.SelfieKeys() {
        var kind :| kind in s.row.evidence && s.row.evidence[kind] == k;
        assert s'.row.evidence[kind] == k;
      }
    }
    forall k | k in Refs(s'.row) ensures k in Refs(s.row) || k in stored {
      if k !in s'.row.live.SelfieKeys() {
        var kind :| kind in s'.row.evidence && s'.row.evidence[kind] == k;
        assert kind != Selfie;
        assert s.row.evidence[kind] == k;
      }
    }
  }

  lemma CrashRespects(s: State, tid: Tid)
    requires Ledger(s) && RowCustody(s.row, s.h) && tid in s.tasks
    ensures var s' := DoCrash(s, tid);
            Respects(s, s', tid) && Ledger(s') && RowCustody(s'.row, s'.h) && tid !in s'.tasks
  {
    assert DoCrash(s, tid).h.fate.Keys == s.h.fate.Keys;
  }

  lemma CrashKept(config: Config, s: State, tid: Tid)
    requires AllKept(config, s)
    ensures AllKept(config, DoCrash(s, tid))
  {
    hide Refs, Active, NewKey;
    forall k | k in s.blobs ensures Kept(config, DoCrash(s, tid), k) {
      assert Kept(config, s, k);
    }
  }

  lemma CustodyCrash(config: Config, s: State, tid: Tid)
    requires Custody(config, s) && tid in s.tasks
    ensures Custody(config, DoCrash(s, tid))
  {
    hide Respects, RowCustody, DoCrash, TaskCustody;
    CrashRespects(s, tid);
    CrashKept(config, s, tid);
    CustodyStep(config, s, DoCrash(s, tid), tid);
  }

  lemma CustodyClean(config: Config, s: State, tid: Tid, key: Key)
    requires Custody(config, s) && tid in s.tasks && s.tasks[tid].Cleaning? && key in s.tasks[tid].keys
    ensures Custody(config, DoClean(s, tid, key))
  {
    hide Refs, Active, NewKey;
    assert TaskCustody(config, s, tid, s.tasks[tid]);
    CustodyDelete(config, s, tid, DoClean(s, tid, key), {key});
  }

  lemma CustodyDeleteSwept(config: Config, s: State, tid: Tid)
    requires Custody(config, s) && tid in s.tasks && s.tasks[tid].Marked?
    ensures Custody(config, DoDeleteSwept(s, tid))
  {
    hide Refs, Active, NewKey;
    assert TaskCustody(config, s, tid, s.tasks[tid]);
    CustodyDelete(config, s, tid, DoDeleteSwept(s, tid), s.tasks[tid].state.SelfieKeys());
  }

  lemma CustodyDeletePruned(config: Config, s: State, tid: Tid, key: Key)
    requires Custody(config, s) && tid in s.tasks && s.tasks[tid].Pruning? && key in s.tasks[tid].remaining
    ensures Custody(config, DoDeletePruned(s, tid, key))
  {
    hide Refs, Active, NewKey;
    assert TaskCustody(config, s, tid, s.tasks[tid]);
    CustodyDelete(config, s, tid, DoDeletePruned(s, tid, key), {key});
  }

  lemma CustodyMarkSweep(config: Config, s: State, tid: Tid, at: Time)
    requires Custody(config, s) && tid !in s.tasks
    ensures Custody(config, DoMarkSweep(s, tid, at))
  {
    if SweepMarkTx(s.row, at).Some? {
      assert SweepMarkTx(s.row, at).value.live.SelfieKeys() == s.row.live.SelfieKeys();
      CustodyRow(config, s, tid, DoMarkSweep(s, tid, at));
    }
  }

  lemma CustodyFinishSweep(config: Config, s: State, tid: Tid)
    requires Custody(config, s) && tid in s.tasks && s.tasks[tid].Swept? && SweepOk(s, s.tasks[tid].state)
    ensures Custody(config, DoFinishSweep(s, tid))
  {
    var state := s.tasks[tid].state;
    if SweepFinishTx(s.row, state).Some? {
      assert TaskCustody(config, s, tid, s.tasks[tid]);
      SweepRefs(s.row, s.h, state);
      hide Refs;
      CustodyRow(config, s, tid, DoFinishSweep(s, tid));
    } else {
      CustodyLocal(config, s, tid, DoFinishSweep(s, tid));
    }
  }

  lemma SweepRefs(row: Row, h: History, state: Live)
    requires row.live == state && SweepFinishTx(row, state).Some? && RowCustody(row, h)
    ensures var row' := SweepFinishTx(row, state).value;
            && Refs(row') <= Refs(row)
            && (forall k :: k in Refs(row) && k !in Refs(row') ==> k in state.SelfieKeys())
            && RowCustody(row', h)
  {
    var row' := SweepFinishTx(row, state).value;
    forall k | k in Refs(row) && k !in state.SelfieKeys() ensures k in Refs(row') {
      var kind :| kind in row.evidence && row.evidence[kind] == k;
      assert kind in row'.evidence && row'.evidence[kind] == k;
    }
  }

  lemma CustodyTombstone(config: Config, s: State, tid: Tid)
    requires Custody(config, s) && tid in s.tasks && s.tasks[tid].Selected?
    requires s.row.status !in {NotStarted, InProgress}
    ensures Custody(config, DoTombstone(s, tid))
  {
    if TombstoneTx(s.row).Some? {
      var row := TombstoneTx(s.row).value;
      assert Refs(row) == Refs(s.row);
      assert forall k :: k in Refs(row) ==> Settled(s.h, k);
      CustodyRow(config, s, tid, DoTombstone(s, tid));
    } else {
      CustodyLocal(config, s, tid, DoTombstone(s, tid));
    }
  }

  lemma CustodyFinishPrune(config: Config, s: State, tid: Tid)
    requires Custody(config, s) && tid in s.tasks && s.tasks[tid].Pruning? && s.tasks[tid].remaining == {}
    ensures Custody(config, DoFinishPrune(s, tid))
  {
    assert TaskCustody(config, s, tid, s.tasks[tid]);
    assert Refs(EraseEvidenceTx(s.row)) == {};
    CustodyRow(config, s, tid, DoFinishPrune(s, tid));
  }

  lemma CustodyCommitResult(config: Config, s: State, tid: Tid)
    requires Custody(config, s) && tid in s.tasks && s.tasks[tid].Judged?
    requires s.row.status == Processing ==> forall k :: k in s.row.live.SelfieKeys() ==> k in s.row.evidence.Values
    ensures Custody(config, DoCommitResult(config, s, tid))
  {
    hide OutcomeOf;
    var j := s.tasks[tid].verdict;
    var o := OutcomeOf(config, j);
    if ResultTx(s.row, j.claim.version, o).Some? {
      assert Refs(ResultTx(s.row, j.claim.version, o).value) == Refs(s.row);
      CustodyRow(config, s, tid, DoCommitResult(config, s, tid));
    } else {
      CustodyLocal(config, s, tid, DoCommitResult(config, s, tid));
    }
  }

  lemma CustodyClaim(config: Config, s: State, tid: Tid, clock: Time)
    requires Custody(config, s) && tid !in s.tasks
    ensures Custody(config, DoClaim(s, tid, clock))
  {
    if ClaimTx(s.row, clock).Some? {
      assert Refs(ClaimTx(s.row, clock).value) == Refs(s.row);
      CustodyRow(config, s, tid, DoClaim(s, tid, clock));
    }
  }

  lemma CustodySubmitOrErase(config: Config, s: State, tid: Tid, row: Row)
    requires Custody(config, s) && tid !in s.tasks
    requires row.evidence == s.row.evidence && row.live == s.row.live && (!Active(s.row) ==> !Active(row))
    ensures Custody(config, s.(row := row))
  {
    var s' := s.(row := row);
    assert Refs(row) == Refs(s.row);
    CustodyRow(config, s, tid, s');
  }
}

