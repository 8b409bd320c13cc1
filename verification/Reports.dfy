/** What the vault reports: the events of a call are those of what it did, with the commitments, ciphertexts,
    amounts and parties that it stored, queued or paid. */
module Reports {
  import opened Common
  import opened Merkle
  import opened VaultTypes
  import opened VaultSpec
  import opened VaultInvariant
  import opened EntryQueue
  import opened Deposits
  import Checks
  import Payees

  /** A deposit reports its two nullifiers and itself, as it is pending then. */
  lemma ShieldReports(s: VaultState, env: Env, proof: TxProof, ext: ExtData, depositor: Address)
    requires Shield(s, env, proof, ext, depositor).result.Ok?
    ensures var o, id := Shield(s, env, proof, ext, depositor), s.status.nextDepositId;
            && id in o.state.pending && |proof.inputNullifiers| == 2
            && var d := o.state.pending[id];
               o.events == [NewNullifier(proof.inputNullifiers[0]), NewNullifier(proof.inputNullifiers[1]),
                            DepositPending(id, d.depositor, d.amount, d.commitment0, d.commitment1, d.createdAt)]
  {
    Checks.ShieldTakes(s, env, proof, ext, depositor);
    hide ShieldError;
  }

  /** A transaction reports its nullifiers, its outputs at the leaves they take, each with its own ciphertext, and
      either the exit that waits or what is paid at once. */
  lemma TransactReports(s: VaultState, env: Env, proof: TxProof, ext: ExtData, submitter: Address)
    requires Solvent(s) && Transact(s, env, proof, ext, submitter).result.Ok?
    ensures var o, n, tail := Transact(s, env, proof, ext, submitter), |s.leaves|, s.status.exitTail;
            && |proof.inputNullifiers| == 2 == |proof.outputCommitments| && |o.state.leaves| == n + 2
            && o.events ==
               [NewNullifier(proof.inputNullifiers[0]), NewNullifier(proof.inputNullifiers[1]),
                NewCommitment(n, o.state.leaves[n], ext.encryptedOutput0), NewCommitment(n + 1, o.state.leaves[n + 1], ext.encryptedOutput1),
                if tail in o.state.exits then
                  var exit := o.state.exits[tail];
                  ExitQueued(tail, -exit.payout, exit.fee, exit.recipient, exit.relayer)
                else Settled(ext.extAmount, ext.fee, ext.recipient, ext.relayer, None)]
  {
    Checks.TransactTakes(s, env, proof, ext, submitter);
    Payees.QueueIsEmpty(s);
    hide TransactError, SettleError, Solvent, Checks.Settles;
  }

  /** What an admission of these deposits reports, from this leaf on. */
  ghost function Announced(pending: map<nat, PendingDeposit>, n: nat, ids: seq<nat>): seq<Event>
    requires forall i :: 0 <= i < |ids| ==> ids[i] in pending
    decreases |ids|
  {
    if ids == [] then []
    else
      var d := pending[ids[0]];
      [NewCommitment(n, d.commitment0, d.encryptedOutput0), NewCommitment(n + 1, d.commitment1, d.encryptedOutput1),
       DepositAdmitted(ids[0], n, n + 1)]
      + Announced(pending, n + 2, ids[1..])
  }

  lemma AnnouncedNone(pending: map<nat, PendingDeposit>, n: nat)
    ensures Announced(pending, n, []) == []
  {
  }

  lemma AnnouncedOneMore(pending: map<nat, PendingDeposit>, n: nat, id: nat, rest: seq<nat>)
    requires id in pending && forall i :: 0 <= i < |rest| ==> rest[i] in pending
    ensures Announced(pending, n, [id] + rest) == Announced(pending, n, [id]) + Announced(pending, n + 2, rest)
  {
    assert ([id] + rest)[1..] == rest && [id][1..] == [];
    assert Announced(pending, n + 2, []) == [];
  }

  lemma {:induction false} AdmitLoopReports(s: VaultState, env: Env, ids: seq<nat>, a: Admitting)
    requires ToCome(s, a) && AdmitLoop(s, env, ids, a).Ok?
    ensures var end, due := AdmitLoop(s, env, ids, a).value, DueOf(s, env.now, ids);
            && (forall i :: 0 <= i < |due| ==> due[i] in s.pending)
            && end.events == a.events + Announced(s.pending, |a.leaves|, due)
    decreases |ids|
  {
    hide AdmitOne, ToCome, Due, Announced;
    DueArePending(s, env.now, ids);
    if ids == [] {
      AnnouncedNone(s.pending, |a.leaves|);
    } else {
      var id, next := ids[0], AdmitOne(s, env, ids[0], a).value;
      AdmitOneTakes(s, env, id, a);
      AdmitOneReports(s, env, id, a);
      AdmitLoopReports(s, env, ids[1..], next);
      var due, rest := DueOf(s, env.now, ids), DueOf(s, env.now, ids[1..]);
      if id in s.pending && Due(s, env.now, id) {
        assert due == [id] + rest;
        AnnouncedOneMore(s.pending, |a.leaves|, id, rest);
      } else {
        assert due == rest;
      }
    }
  }

  lemma AdmitOneReports(s: VaultState, env: Env, id: nat, a: Admitting)
    requires ToCome(s, a) && AdmitOne(s, env, id, a).Ok?
    ensures AdmitOne(s, env, id, a).value.events == a.events +
              if id in s.pending && Due(s, env.now, id) then Announced(s.pending, |a.leaves|, [id]) else []
  {
    if id in s.pending {
      EligibleIsDue(s, env.now, id);
    }
    assert [id][1..] == [];
  }

  /** An admission reports each deposit it takes, with its own commitments and ciphertexts, at the leaves they take. */
  lemma AdmitReports(s: VaultState, env: Env, ids: seq<nat>)
    requires Admit(s, env, ids).result.Ok?
    ensures var due := DueOf(s, env.now, ids);
            && (forall i :: 0 <= i < |due| ==> due[i] in s.pending)
            && Admit(s, env, ids).events == Announced(s.pending, |s.leaves|, due)
  {
    AdmitLoopReports(s, env, ids, AdmitStart(s));
  }
}
