/** The monitor object itself: its shared fields, and one recovery pass that nothing else disturbs. */
module CapabilityMonitor {
  import opened CapabilityFence
  import Laws = CapabilityFenceLaws

  /** What the formation and role probes and the reconstructions answer during one pass. */
  datatype Answers = Answers(base: bool, required: Role -> bool, denials: Role -> bool, rebuild: Role -> bool)

  ghost predicate ProbesPass(x: Answers, roles: seq<Role>) {
    forall i :: 0 <= i < |roles| ==> x.required(roles[i]) && x.denials(roles[i])
  }

  ghost predicate RebuildsPass(x: Answers, roles: seq<Role>) {
    forall i :: 0 <= i < |roles| ==> x.rebuild(roles[i])
  }

  class Monitor {
    var fence: Fence
    var generation: nat
    var roles: seq<Role>
    /** The protocol state that the fields stand for, with its history. */
    ghost var book: State

    ghost predicate Valid()
      reads this
    {
      && book.fence == fence && book.generation == generation && book.roles == roles
      && Laws.Inv(book)
    }

    constructor ()
      ensures Valid() && book == INITIAL
    {
      fence, generation, roles, book := Closed, 0, [], INITIAL;
      new;
      Laws.RunKeepsInv(INITIAL, []);
    }

    method RegisterRole(role: Role) returns (ok: bool)
      requires Valid()
      modifies this
      ensures Valid() && book == Step(old(book), Register(role)) && ok == (role !in old(roles))
    {
      Laws.StepKeepsInv(book, Register(role));
      book := Step(book, Register(role));
      ok := role !in roles;
      if ok {
        roles := roles + [role];
      }
    }

    method ReportFailure()
      requires Valid()
      modifies this
      ensures Valid() && book == Step(old(book), Report)
    {
      Laws.StepKeepsInv(book, Report);
      book := Step(book, Report);
      generation, fence := (generation + 1) % WRAP, Closed;
    }

    /** One step of the pass on the book. */
    ghost method Advance(good: bool)
      requires Laws.Inv(book)
      modifies `book
      ensures Laws.Inv(book) && book == PassNext(old(book), good)
    {
      Laws.StepKeepsInv(book, PassStep(good));
      book := PassNext(book, good);
    }

    method FailPass() returns (ok: bool)
      requires Valid() && !book.pass.Free? && PassNext(book, false) == CloseWithFailure(book).(pass := Free)
      modifies this
      ensures Valid() && book == PassNext(old(book), false) && !ok
    {
      Advance(false);
      generation, fence := (generation + 1) % WRAP, Closed;
      ok := false;
    }

    /** Takes the lock and the snapshots, with the base probe between them. */
    method BeginPass(x: Answers) returns (ok: bool)
      requires Valid() && book.pass.Free?
      modifies this
      ensures Valid() && ok == x.base && roles == old(roles)
      ensures ok ==> && fence == old(fence) && generation == old(generation)
                     && book.pass == Probing(|old(book.history)|, generation, roles, 0, false)
      ensures !ok ==> fence == Closed && generation == (old(generation) + 1) % WRAP && book.pass.Free?
    {
      hide Laws.Inv;
      Advance(true);
      if !x.base {
        ok := FailPass();
        return;
      }
      Advance(true);
      Advance(true);
      ok := true;
    }

    /** Both probes of the next role, required operations before denials. */
    method ProbeRole(x: Answers, role: Role) returns (ok: bool)
      requires Valid() && book.pass.Probing? && book.pass.next < |book.pass.roles| && !book.pass.required
      requires role == book.pass.roles[book.pass.next]
      modifies this
      ensures Valid() && ok == (x.required(role) && x.denials(role)) && roles == old(roles)
      ensures ok ==> && fence == old(fence) && generation == old(generation)
                     && book.pass == Probing(old(book.pass).begun, old(book.pass).start, old(book.pass).roles,
                                             old(book.pass).next + 1, false)
      ensures !ok ==> fence == Closed && generation == (old(generation) + 1) % WRAP && book.pass.Free?
    {
      hide Laws.Inv;
      if !x.required(role) {
        ok := FailPass();
        return;
      }
      Advance(true);
      if !x.denials(role) {
        ok := FailPass();
        return;
      }
      Advance(true);
      ok := true;
    }

    /** All role probes, in registration order. */
    method ProbeRoles(x: Answers, snapshot: seq<Role>) returns (ok: bool)
      requires Valid() && book.pass.Probing? && book.pass.roles == snapshot
      requires book.pass.next == 0 && !book.pass.required
      modifies this
      ensures Valid() && ok == ProbesPass(x, snapshot)
      ensures ok ==> && fence == old(fence) && generation == old(generation)
                     && book.pass == Probing(old(book.pass).begun, old(book.pass).start, snapshot, |snapshot|, false)
      ensures !ok ==> fence == Closed && generation == (old(generation) + 1) % WRAP && book.pass.Free?
      ensures roles == old(roles)
    {
      hide Laws.Inv;
      var i := 0;
      while i < |snapshot|
        invariant i <= |snapshot| && Valid() && roles == old(roles) && book.pass.Probing?
        invariant book.pass == Probing(old(book.pass).begun, old(book.pass).start, snapshot, i, false)
        invariant fence == old(fence) && generation == old(generation)
        invariant forall j :: 0 <= j < i ==> x.required(snapshot[j]) && x.denials(snapshot[j])
      {
        ok := ProbeRole(x, snapshot[i]);
        if !ok {
          return;
        }
        i := i + 1;
      }
      ok := true;
    }

    /** Every reconstruction in the same order. */
    method RebuildRoles(x: Answers, snapshot: seq<Role>) returns (ok: bool)
      requires Valid() && book.pass.Rebuilding? && book.pass.roles == snapshot && book.pass.next == 0
      modifies this
      ensures Valid() && ok == RebuildsPass(x, snapshot)
      ensures ok ==> && fence == old(fence) && generation == old(generation)
                     && book.pass == Rebuilding(old(book.pass).begun, old(book.pass).start, snapshot, |snapshot|)
      ensures !ok ==> fence == Closed && generation == (old(generation) + 1) % WRAP && book.pass.Free?
      ensures roles == old(roles)
    {
      hide Laws.Inv;
      var i := 0;
      while i < |snapshot|
        invariant i <= |snapshot| && Valid()
        invariant book.pass == Rebuilding(old(book.pass).begun, old(book.pass).start, snapshot, i)
        invariant fence == old(fence) && generation == old(generation) && roles == old(roles)
        invariant forall j :: 0 <= j < i ==> x.rebuild(snapshot[j])
      {
        if !x.rebuild(snapshot[i]) {
          ok := FailPass();
          return;
        }
        Advance(true);
        i := i + 1;
      }
      ok := true;
    }

    /** After the probes: nothing to do when open, otherwise rebuild and open. */
    method OpenAfterProbes(x: Answers, snapshot: seq<Role>, starting: nat) returns (ok: bool)
      requires Valid() && fence != Reconstructing && starting == generation
      requires book.pass.Probing? && book.pass == Probing(book.pass.begun, starting, snapshot, |snapshot|, false)
      modifies this
      ensures Valid() && book.pass.Free? && roles == old(roles)
      ensures ok <==> old(fence) == Open || RebuildsPass(x, snapshot)
      ensures ok ==> fence == Open && generation == old(generation)
      ensures !ok ==> fence == Closed && generation == (old(generation) + 1) % WRAP
    {
      hide Laws.Inv, RebuildsPass;
      Advance(true);
      if fence == Open {
        return true;
      }
      fence := Reconstructing;
      ok := RebuildRoles(x, snapshot);
      if ok {
        Advance(true);
        fence := Open;
      }
    }

    /** One whole pass, undisturbed: opens the fence, or closes it and moves the generation. */
    method RunOnce(x: Answers) returns (ok: bool)
      requires Valid() && book.pass.Free?
      modifies this
      ensures Valid() && book.pass.Free? && roles == old(roles)
      ensures ok <==> x.base && ProbesPass(x, roles) && (old(fence) == Open || RebuildsPass(x, roles))
      ensures ok ==> fence == Open && generation == old(generation)
      ensures !ok ==> fence == Closed && generation == (old(generation) + 1) % WRAP
    {
      assert fence != Reconstructing;
      hide Laws.Inv, ProbesPass, RebuildsPass;
      var starting := generation;
      ok := BeginPass(x);
      if ok {
        var snapshot := roles;
        ok := ProbeRoles(x, snapshot);
        if ok {
          ok := OpenAfterProbes(x, snapshot, starting);
        }
      }
    }
  }
}
