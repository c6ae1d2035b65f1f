/**
 Everything outside the browser process: the serial line with the Device behind it, and the
 three durable record stores. Each operation may end the process before or after its effect;
 the ghost trace shows that every effect is a step of the commit protocol.
 */
module BrowserEnvironment {
  import opened Vocabulary
  import opened BrowserState
  import opened Reconciliation
  import opened CommitProtocol
  import opened CommitInvariant
  import opened CommitTheorems
  import opened UnreadUpdates

  datatype Reply = Answered | Failed | Crashed

  class Environment {
    /** Whether calls into durable storage never fail (a crash is not a failure). */
    const reliableStorage: bool

    var device: Device
    var inflight: Option<Request>
    var local: Local
    ghost var process: Process
    ghost var trace: seq<World>

    ghost function Now(): World
      reads this
    {
      World(device, inflight, local, process)
    }

    ghost predicate Valid()
      reads this
    {
      AnyRun(trace) && trace[|trace| - 1] == Now()
    }

    constructor (reliable: bool, d: Device, l: Local)
      requires Start(World(d, None, l, Down))
      ensures Valid() && device == d && inflight == None && local == l && process == Down
      ensures reliableStorage == reliable
    {
      reliableStorage := reliable;
      device, inflight, local, process := d, None, l, Down;
      trace := [World(d, None, l, Down)];
    }

    /** The invariant of the protocol without unread updates. */
    ghost predicate Sober()
      reads this
    {
      Inv(Now())
    }

    lemma NowIsReached()
      requires Valid()
      ensures Reached(Now())
    {
      EveryWorldIsReached(trace, |trace| - 1);
    }

    ghost method Record()
      requires AnyRun(trace) && AnyStep(trace[|trace| - 1], Now())
      modifies this`trace
      ensures Valid() && trace == old(trace) + [Now()]
      ensures Inv(old(trace[|trace| - 1])) && Next(old(trace[|trace| - 1]), Now()) ==> Sober()
    {
      if Inv(trace[|trace| - 1]) && Next(trace[|trace| - 1], Now()) { StepKeepsInv(trace[|trace| - 1], Now()); }
      trace := trace + [Now()];
    }

    /** An update on the line is the only request that can leave the protocol's invariant behind. */
    ghost predicate NoUpdateSent()
      reads this
    {
      inflight.None? || !inflight.value.Update?
    }

    /** The Device and the line move on while the browser waits. */
    method Pause()
      requires Valid()
      modifies this`device, this`inflight, this`trace
      ensures Valid() && old(trace) <= trace
      ensures device.id == old(device.id)
      ensures inflight == old(inflight) || inflight == None
      ensures old(inflight).None? ==> device.stored == old(device.stored) && device.registration == old(device.registration)
      ensures old(Sober() && NoUpdateSent()) ==> Sober()
    {
      hide Inv, Unread, Orphaned, Reached;
      var steps: nat := *;
      while steps > 0
        invariant Valid() && old(trace) <= trace
        invariant device.id == old(device.id)
        invariant inflight == old(inflight) || inflight == None
        invariant old(inflight).None? ==> device.stored == old(device.stored) && device.registration == old(device.registration)
        invariant old(Sober() && NoUpdateSent()) ==> Sober()
      {
        var next: Device := *;
        var serve: bool := *;
        ghost var before := Now();
        if serve && inflight.Some? && Serves(device, inflight.value, next) {
          device, inflight := next, None;
          assert ServeStep(before, Now());
          Record();
        } else if serve && inflight.Some? && inflight.value.Update? && UpdateUnread(device, inflight.value, next) {
          device, inflight := next, None;
          assert UnreadStep(before, Now());
          Record();
        } else if Drifts(device, next) {
          device := next;
          assert DriftStep(before, Now());
          Record();
        }
        steps := steps - 1;
      }
    }

    /** The process ends here; its volatile knowledge is gone. */
    method Crash()
      requires Valid()
      modifies this`process, this`trace
      ensures Valid() && old(trace) <= trace && process == Down
      ensures old(Sober()) ==> Sober()
    {
      hide Inv, Unread, Orphaned, Reached;
      ghost var before := Now();
      process := Down;
      assert CrashStep(before, Now());
      Record();
    }

    /** `hello` is answered after everything sent before it has been served or lost. */
    method RequestHello(current: Hello) returns (reply: Reply, hello: Hello)
      requires Valid()
      modifies this
      ensures Valid() && old(trace) <= trace && local == old(local) && device.id == old(device.id)
      ensures reply.Answered? ==> inflight.None? && process == Deciding(hello) && hello.deviceId == device.id
      ensures reply.Failed? ==> process == old(process)
      ensures !reply.Answered? ==> hello == current
      ensures reply.Crashed? ==> process == Down
      ensures old(inflight).None? ==> device.stored == old(device.stored) && device.registration == old(device.registration)
      ensures old(Sober() && NoUpdateSent()) ==> Sober()
    {
      hide Inv, Unread, Orphaned, Reached;
      hello := current;
      Pause();
      var crash: bool, fail: bool := *, *;
      if crash {
        Crash();
        return Crashed, hello;
      }
      if fail || HelloOf(device).None? { return Reply.Failed, hello; }
      if inflight.Some? {
        ghost var before := Now();
        inflight := None;
        assert ServeStep(before, Now());
        Record();
      }
      ghost var before := Now();
      hello := HelloOf(device).value;
      process := Deciding(hello);
      assert LookStep(before, Now());
      Record();
      Pause();
      reply := Answered;
    }

    /** A durable change decided by reconciliation, or one that changes nothing. */
    method Commit(w: Write) returns (reply: Reply)
      requires Valid() && process.Deciding?
      requires Apply(local, w) == local || Decide(process.hello, local) == Perform(w)
      modifies this
      ensures Valid() && old(trace) <= trace && device.id == old(device.id)
      ensures reply.Answered? ==> local == Apply(old(local), w)
      ensures reply.Failed? ==> local == old(local) && !reliableStorage
      ensures reply.Crashed? ==> local == old(local) || local == Apply(old(local), w)
      ensures process == if reply.Crashed? then Down else old(process)
      ensures device.stored == old(device.stored) && device.registration == old(device.registration)
      ensures inflight == old(inflight) == None
      ensures old(Sober()) ==> Sober()
    {
      hide Inv, Unread, Orphaned, Reached;
      NowIsReached();
      ReachedBasics(Now());
      Pause();
      var crash: bool, fail: bool := *, *;
      if crash {
        Crash();
        return Crashed;
      }
      if fail && !reliableStorage { return Reply.Failed; }
      if Apply(local, w) != local {
        ghost var before := Now();
        local := Apply(local, w);
        assert WriteStep(before, Now());
        Record();
      }
      crash := *;
      if crash {
        Crash();
        return Crashed;
      }
      reply := Answered;
    }

    /** `put` refuses a stored generation other than the expected one, and merges over it. */
    method Put(s: State, expected: Option<nat>) returns (reply: Reply)
      requires Valid() && process.Deciding?
      requires var v := s.vault.id;
               && (if expected.Some? then v in local.store && local.store[v].vault.generation == expected.value
                   else v !in local.store)
               && var put := StorePut(if expected.Some? then Merge(local.store[v], s, expected.value) else s);
               && put.state.vault.id == v
               && (Apply(local, put) == local || Decide(process.hello, local) == Perform(put))
      modifies this
      ensures Valid() && old(trace) <= trace && device.id == old(device.id)
      ensures var v := s.vault.id;
              var put := StorePut(if expected.Some? then Merge(old(local).store[v], s, expected.value) else s);
              && (reply.Answered? ==> local == Apply(old(local), put))
              && (reply.Crashed? ==> local == old(local) || local == Apply(old(local), put))
      ensures reply.Failed? ==> local == old(local) && !reliableStorage
      ensures process == if reply.Crashed? then Down else old(process)
      ensures device.stored == old(device.stored) && device.registration == old(device.registration)
      ensures inflight == old(inflight) == None
      ensures old(Sober()) ==> Sober()
    {
      var v := s.vault.id;
      var next := if expected.Some? then Merge(local.store[v], s, expected.value) else s;
      reply := Commit(StorePut(next));
    }

    /** Stages a candidate; a record already filed under its Vault id refuses it. */
    method Stage(p: Pending) returns (reply: Reply)
      requires Valid() && process.Deciding? && Decide(process.hello, local) == Finished
      requires p.candidate.vault.id !in local.journal ==> MayStage(process.hello, local, p)
      modifies this
      ensures Valid() && old(trace) <= trace && device.id == old(device.id)
      ensures var staged := old(local).(journal := old(local).journal[p.candidate.vault.id := p]);
              match reply
              case Answered => local == staged && process == Committing(p, Staged)
                               && p.candidate.vault.id !in old(local).journal
              case Failed => local == old(local) && process == old(process)
              case Crashed => (local == old(local) || local == staged) && process == Down
      ensures reply.Failed? && reliableStorage ==> p.candidate.vault.id in local.journal
      ensures device.stored == old(device.stored) && device.registration == old(device.registration)
      ensures inflight == old(inflight) == None
      ensures old(Sober()) ==> Sober()
    {
      hide Inv, Unread, Orphaned, Reached;
      NowIsReached();
      ReachedBasics(Now());
      Pause();
      var crash: bool, fail: bool := *, *;
      if crash {
        Crash();
        return Crashed;
      }
      if p.candidate.vault.id in local.journal || (fail && !reliableStorage) { return Reply.Failed; }
      ghost var before := Now();
      local := local.(journal := local.journal[p.candidate.vault.id := p]);
      process := Committing(p, Staged);
      assert StageStep(before, Now());
      Record();
      crash := *;
      if crash {
        Crash();
        return Crashed;
      }
      reply := Answered;
    }

    /**
     Sends the staged request. The reply is of no consequence: `Answered` is an acknowledgement
     that may be missing although the request was served, or given without any effect.
     */
    method SendCommit(p: Pending) returns (reply: Reply)
      requires Valid() && inflight.None?
      requires process == Committing(p, Delivered) || (process == Committing(p, Staged) && !Installs(p))
      modifies this
      ensures Valid() && old(trace) <= trace && local == old(local) && device.id == old(device.id)
      ensures process == if reply.Crashed? then Down else Committing(p, Sent)
      ensures old(Sober()) && p.kind != VaultUpdate ==> Sober() && NoUpdateSent()
    {
      hide Inv, Unread, Orphaned, Reached;
      Pause();
      ghost var before := Now();
      inflight := Some(CommitRequest(p));
      process := Committing(p, Sent);
      assert SendStep(before, Now());
      Record();
      Pause();
      var crash: bool, ok: bool := *, *;
      if crash {
        Crash();
        return Crashed;
      }
      reply := if ok then Answered else Reply.Failed;
    }

    /** Delivers the VMK of an installation; only an acknowledged delivery goes on. */
    method DeliverForInstall(p: Pending) returns (reply: Reply)
      requires Valid() && inflight.None? && process == Committing(p, Staged) && Installs(p)
      modifies this
      ensures Valid() && old(trace) <= trace && local == old(local) && device.id == old(device.id)
      ensures match reply
              case Answered => process == Committing(p, Delivered) && inflight.None?
              case Failed => process == Committing(p, Delivering)
              case Crashed => process == Down
      ensures old(Sober()) ==> Sober() && NoUpdateSent()
    {
      hide Inv, Unread, Orphaned, Reached;
      Pause();
      ghost var before := Now();
      inflight := Some(Deliver(p.candidate.vault.id, p.candidate.registration));
      process := Committing(p, Delivering);
      assert SendStep(before, Now());
      Record();
      Pause();
      var crash: bool, fail: bool := *, *;
      if crash {
        Crash();
        return Crashed;
      }
      if fail || inflight.Some? || device.install != Some(Delivery(p)) { return Reply.Failed; }
      before := Now();
      process := Committing(p, Delivered);
      assert AcknowledgeStep(before, Now());
      Record();
      Pause();
      NowIsReached();
      ReachedBasics(Now());
      reply := Answered;
    }

    /** A request that can only lock, unlock or poll the Device: key delivery, status, cancel. */
    method Converse() returns (reply: Reply)
      requires Valid() && inflight.None?
      modifies this
      ensures Valid() && old(trace) <= trace && local == old(local) && device.id == old(device.id)
      ensures process == if reply.Crashed? then Down else old(process)
      ensures inflight.None? && device.stored == old(device.stored) && device.registration == old(device.registration)
      ensures old(Sober()) ==> Sober()
    {
      hide Inv, Unread, Orphaned, Reached;
      Pause();
      var crash: bool, ok: bool := *, *;
      if crash {
        Crash();
        return Crashed;
      }
      reply := if ok then Answered else Reply.Failed;
    }

    /** Factory Reset: the intent, its withdrawal, and the journal entry. */
    method StageIntent(s: State) returns (reply: Reply)
      requires Valid() && process.Deciding? && Decide(process.hello, local) == Finished
      requires process.hello.vault.Some? && ActiveWriter(process.hello, local, process.hello.vault.value.id)
      requires s == local.store[process.hello.vault.value.id] && process.hello.deviceId !in local.intents
      modifies this
      ensures Valid() && old(trace) <= trace && device.id == old(device.id)
      ensures var d := old(process).hello.deviceId;
              var staged := old(local).(intents := old(local).intents[d := ResetIntent(d, s)]);
              match reply
              case Answered => local == staged && process == Resetting(old(process).hello, s)
              case Failed => local == old(local) && process == old(process) && !reliableStorage
              case Crashed => (local == old(local) || local == staged) && process == Down
      ensures device.stored == old(device.stored) && device.registration == old(device.registration)
      ensures inflight == old(inflight) == None
      ensures old(Sober()) ==> Sober()
    {
      hide Inv, Unread, Orphaned, Reached;
      NowIsReached();
      ReachedBasics(Now());
      Pause();
      var crash: bool, fail: bool := *, *;
      if crash {
        Crash();
        return Crashed;
      }
      if fail && !reliableStorage { return Reply.Failed; }
      var d := s.deviceId.value;
      ghost var before := Now();
      local := local.(intents := local.intents[d := ResetIntent(d, s)]);
      process := Resetting(process.hello, s);
      assert StageIntentStep(before, Now());
      Record();
      crash := *;
      if crash {
        Crash();
        return Crashed;
      }
      reply := Answered;
    }

    method WithdrawIntent(d: DeviceId) returns (reply: Reply)
      requires Valid() && process.Resetting? && process.hello.deviceId == d
      modifies this
      ensures Valid() && old(trace) <= trace && device.id == old(device.id)
      ensures var withdrawn := old(local).(intents := old(local).intents - {d});
              match reply
              case Answered => local == withdrawn && process == Deciding(old(process).hello)
              case Failed => local == old(local) && process == old(process) && !reliableStorage
              case Crashed => (local == old(local) || local == withdrawn) && process == Down
      ensures device.stored == old(device.stored) && device.registration == old(device.registration)
      ensures old(Sober()) ==> Sober()
      ensures inflight == old(inflight) == None
    {
      hide Inv, Unread, Orphaned, Reached;
      NowIsReached();
      ReachedBasics(Now());
      Pause();
      var crash: bool, fail: bool := *, *;
      if crash {
        Crash();
        return Crashed;
      }
      if fail && !reliableStorage { return Reply.Failed; }
      ghost var before := Now();
      local := local.(intents := local.intents - {d});
      process := Deciding(process.hello);
      assert UnstageIntentStep(before, Now());
      Record();
      crash := *;
      if crash {
        Crash();
        return Crashed;
      }
      reply := Answered;
    }

    method StageReset(s: State) returns (reply: Reply)
      requires Valid() && process.Resetting? && process.state == s
      modifies this
      ensures Valid() && old(trace) <= trace && device.id == old(device.id)
      ensures var p := Pending(DeviceReset, s.vault.generation, s);
              var staged := old(local).(journal := old(local).journal[s.vault.id := p]);
              match reply
              case Answered => local == staged && process == Committing(p, Staged)
              case Failed => local == old(local) && process == old(process) && !reliableStorage
              case Crashed => (local == old(local) || local == staged) && process == Down
      ensures device.stored == old(device.stored) && device.registration == old(device.registration)
      ensures inflight == old(inflight) == None
      ensures old(Sober()) ==> Sober()
    {
      hide Inv, Unread, Orphaned, Reached;
      NowIsReached();
      ReachedBasics(Now());
      Pause();
      var crash: bool, fail: bool := *, *;
      if crash {
        Crash();
        return Crashed;
      }
      if fail && !reliableStorage { return Reply.Failed; }
      var p := Pending(DeviceReset, s.vault.generation, s);
      ghost var before := Now();
      local := local.(journal := local.journal[s.vault.id := p]);
      process := Committing(p, Staged);
      assert StageResetStep(before, Now());
      Record();
      crash := *;
      if crash {
        Crash();
        return Crashed;
      }
      reply := Answered;
    }
  }
}
