/** Registering and deregistering the relay as an OS service, across the system and user scopes. */
module Service {
  import opened Net

  datatype Scope = System | User

  datatype Choice = Auto | ForceSystem | ForceUser

  function ResolveScope(choice: Choice, supportsUser: bool, isRoot: bool): Scope {
    if !supportsUser then System
    else match choice
      case ForceSystem => System
      case ForceUser => User
      case Auto => if isRoot then System else User
  }

  function OtherScope(scope: Scope): Scope {
    if scope == System then User else System
  }

  /** The scopes an uninstall goes through, the named or resolved one first. */
  function UninstallScopes(choice: Choice, supportsUser: bool, isRoot: bool): (scopes: seq<Scope>)
    ensures 1 <= |scopes| <= 2 && (|scopes| == 2 ==> scopes[1] == OtherScope(scopes[0]))
  {
    var requested := ResolveScope(choice, supportsUser, isRoot);
    if !supportsUser || choice != Auto then [requested] else [requested, OtherScope(requested)]
  }

  /** What a probe says of a scope; an unreadable scope is never read as absence. */
  datatype Registration = Present | Absent | Unknown(reason: string)

  /** How a scope's service manager behaves: what its probe says, whether a delete reports success,
      whether a delete really removes, and whether a create succeeds. */
  datatype Manager = NoManager | Manager(answer: Registration, deletes: bool, removes: bool, creates: bool)

  /** The managers of a host's two scopes. */
  datatype Host = Host(system: Manager, user: Manager) {
    function At(scope: Scope): Manager {
      if scope == System then system else user
    }
  }

  datatype Mode = Requested | Swept

  datatype Reason = CannotTell(reason: string) | DeleteFailed | NotAddressable

  datatype ScopeRemoval = ScopeRemoval(
    scope: Scope, found: bool, removed: bool, indeterminate: bool, error: Option<Reason>)

  datatype Outcome =
    | Uninstalled(removed: seq<Scope>)
    | Incomplete(problems: seq<Scope>)     // permission denied: something may be left
    | NothingThere                         // not found

  /** The machine: which scopes hold a registration, and which have been written to. */
  class Machine {
    var registered: set<Scope>
    ghost var written: set<Scope>

    method Stop(scope: Scope)
      modifies this`written
      ensures written == old(written) + {scope}
    {
      written := written + {scope};
    }

    method Delete(scope: Scope, m: Manager) returns (ok: bool)
      requires m.Manager?
      modifies this
      ensures ok == m.deletes
      ensures registered == if m.removes then old(registered) - {scope} else old(registered)
      ensures written == old(written) + {scope}
    {
      written := written + {scope};
      if m.removes {
        registered := registered - {scope};
      }
      ok := m.deletes;
    }

    method Create(scope: Scope, m: Manager) returns (ok: bool)
      requires m.Manager?
      modifies this
      ensures ok == m.creates
      ensures registered == if ok then old(registered) + {scope} else old(registered)
      ensures written == old(written) + {scope}
    {
      written := written + {scope};
      if m.creates {
        registered := registered + {scope};
      }
      ok := m.creates;
    }
  }

  // ---- One scope ----

  /** A requested scope is deleted whatever the probe says; a swept one only if the probe saw it. */
  predicate Touches(m: Manager, mode: Mode) {
    m.Manager? && (mode == Requested || m.answer == Present)
  }

  /** The report of one scope, from how its manager behaves. */
  function Report(m: Manager, scope: Scope, mode: Mode): ScopeRemoval {
    match m
    case NoManager => ScopeRemoval(scope, false, false, mode == Requested, Some(NotAddressable))
    case Manager(answer, deletes, _, _) =>
      var found, unreadable := answer == Present, answer.Unknown?;
      if !Touches(m, mode) then
        ScopeRemoval(scope, found, false, unreadable, if unreadable then Some(CannotTell(answer.reason)) else None)
      else if deletes then
        ScopeRemoval(scope, found, true, false, if unreadable then Some(CannotTell(answer.reason)) else None)
      else ScopeRemoval(scope, found, false, unreadable || found, Some(DeleteFailed))
  }

  method RemoveRegistration(machine: Machine, scope: Scope, m: Manager, mode: Mode) returns (removal: ScopeRemoval)
    requires m.Manager?
    modifies machine
    ensures removal == Report(m, scope, mode)
    ensures machine.registered ==
            if Touches(m, mode) && m.removes then old(machine.registered) - {scope} else old(machine.registered)
    ensures machine.written == if Touches(m, mode) then old(machine.written) + {scope} else old(machine.written)
  {
    removal := ScopeRemoval(scope, false, false, false, None);
    var probe := m.answer;
    removal := removal.(found := probe == Present);
    if probe.Unknown? {
      removal := removal.(error := Some(CannotTell(probe.reason)));
    }
    if mode == Swept && !removal.found {
      removal := removal.(indeterminate := probe.Unknown?);
      return;
    }
    machine.Stop(scope);
    var ok := machine.Delete(scope, m);
    if ok {
      removal := removal.(removed := true);
    } else {
      removal := removal.(indeterminate := probe.Unknown? || removal.found, error := Some(DeleteFailed));
    }
  }

  // ---- The verdict ----

  predicate Problem(r: ScopeRemoval) {
    r.indeterminate || (r.found && !r.removed)
  }

  function ScopesOf(removals: seq<ScopeRemoval>, pick: ScopeRemoval -> bool): (s: seq<Scope>)
    ensures forall x :: x in s <==> exists i :: 0 <= i < |removals| && pick(removals[i]) && removals[i].scope == x
    ensures s == [] <==> forall i | 0 <= i < |removals| :: !pick(removals[i])
  {
    if removals == [] then []
    else
      var rest := ScopesOf(removals[1..], pick);
      assert forall i | 1 <= i < |removals| :: removals[i] == removals[1..][i - 1];
      assert forall i | 0 <= i < |removals| - 1 :: removals[1..][i] == removals[i + 1];
      if pick(removals[0]) then [removals[0].scope] + rest else rest
  }

  function UninstallOutcome(removals: seq<ScopeRemoval>): Outcome {
    var removed := ScopesOf(removals, (r: ScopeRemoval) => r.removed);
    var problems := ScopesOf(removals, (r: ScopeRemoval) => Problem(r));
    if problems != [] then Incomplete(problems)
    else if removed == [] then NothingThere
    else Uninstalled(removed)
  }

  // ---- Uninstall ----

  function ModeAt(i: nat): Mode {
    if i == 0 then Requested else Swept
  }

  ghost function Reports(host: Host, scopes: seq<Scope>): (r: seq<ScopeRemoval>)
    ensures |r| == |scopes|
    ensures forall i | 0 <= i < |scopes| :: r[i] == Report(host.At(scopes[i]), scopes[i], ModeAt(i))
  {
    seq(|scopes|, i requires 0 <= i < |scopes| => Report(host.At(scopes[i]), scopes[i], ModeAt(i)))
  }

  /** The registrations left by the first `n` steps. */
  ghost function Left(before: set<Scope>, host: Host, scopes: seq<Scope>, n: nat): set<Scope>
    requires n <= |scopes|
  {
    if n == 0 then before
    else
      var left := Left(before, host, scopes, n - 1);
      if Clears(host, scopes, n - 1) then left - {scopes[n - 1]} else left
  }

  ghost predicate Clears(host: Host, scopes: seq<Scope>, i: nat)
    requires i < |scopes|
  {
    Touches(host.At(scopes[i]), ModeAt(i)) && host.At(scopes[i]).removes
  }

  lemma {:induction false} LeftShrinks(before: set<Scope>, host: Host, scopes: seq<Scope>, n: nat, s: Scope)
    requires n <= |scopes|
    ensures s in Left(before, host, scopes, n) ==> s in before
    ensures s in Left(before, host, scopes, n) ==> forall i | 0 <= i < n && scopes[i] == s :: !Clears(host, scopes, i)
  {
    if n > 0 {
      LeftShrinks(before, host, scopes, n - 1, s);
    }
  }

  /** Deregister at every scope the choice covers. A scope the caller did not name is written to only
      when its probe saw a registration there. */
  method Uninstall(machine: Machine, host: Host, choice: Choice, supportsUser: bool, isRoot: bool)
    returns (outcome: Outcome)
    modifies machine
    ensures var scopes := UninstallScopes(choice, supportsUser, isRoot);
            && outcome == UninstallOutcome(Reports(host, scopes))
            && machine.registered == Left(old(machine.registered), host, scopes, |scopes|)
    ensures forall s | s in machine.written && s !in old(machine.written) ::
              && host.At(s).Manager?
              && (!supportsUser || choice == ForceSystem ==> s == System)
              && (supportsUser && choice == ForceUser ==> s == User)
              && (supportsUser && choice == Auto && host.At(s).answer != Present ==> (s == System <==> isRoot))
  {
    var scopes := UninstallScopes(choice, supportsUser, isRoot);
    var removals := [];
    for i := 0 to |scopes|
      invariant |removals| == i
      invariant forall j | 0 <= j < i :: removals[j] == Report(host.At(scopes[j]), scopes[j], ModeAt(j))
      invariant machine.registered == Left(old(machine.registered), host, scopes, i)
      invariant forall s | s in machine.written && s !in old(machine.written) ::
                  exists j :: 0 <= j < i && scopes[j] == s && Touches(host.At(s), ModeAt(j))
    {
      var m := host.At(scopes[i]);
      var mode := if i == 0 then Requested else Swept;
      var removal := Report(m, scopes[i], mode);
      if m.Manager? {
        removal := RemoveRegistration(machine, scopes[i], m, mode);
      }
      removals := removals + [removal];
    }
    assert removals == Reports(host, scopes);
    outcome := UninstallOutcome(removals);
  }

  /** What is asked of the managers: an absent answer and a successful delete are true, and a scope
      that cannot be addressed holds nothing. */
  ghost predicate Honest(m: Manager, scope: Scope, registered: set<Scope>) {
    match m
    case NoManager => scope !in registered
    case Manager(answer, deletes, removes, _) => (answer == Absent ==> scope !in registered) && (deletes ==> removes)
  }

  /** A successful uninstall is true: nothing is left at any scope it covers, and at least one delete
      was carried out. */
  lemma SuccessIsTrue(before: set<Scope>, host: Host, choice: Choice, supportsUser: bool, isRoot: bool)
    requires forall s :: Honest(host.At(s), s, before)
    requires UninstallOutcome(Reports(host, UninstallScopes(choice, supportsUser, isRoot))).Uninstalled?
    ensures var scopes := UninstallScopes(choice, supportsUser, isRoot);
            var removed := UninstallOutcome(Reports(host, scopes)).removed;
            && (forall s | s in scopes :: s !in Left(before, host, scopes, |scopes|))
            && removed != [] && (forall s | s in removed :: s in scopes && host.At(s).Manager? && host.At(s).removes)
    ensures choice == Auto && supportsUser ==>
              Left(before, host, UninstallScopes(choice, supportsUser, isRoot), 2) == {}
  {
    var scopes := UninstallScopes(choice, supportsUser, isRoot);
    var reports := Reports(host, scopes);
    forall i | 0 <= i < |scopes|
      ensures scopes[i] !in Left(before, host, scopes, |scopes|)
    {
      assert !Problem(reports[i]);
      assert Honest(host.At(scopes[i]), scopes[i], before);
      LeftShrinks(before, host, scopes, |scopes|, scopes[i]);
    }
    forall s | s in UninstallOutcome(reports).removed
      ensures s in scopes && host.At(s).Manager? && host.At(s).removes
    {
      var i :| 0 <= i < |reports| && reports[i].removed && reports[i].scope == s;
      assert Honest(host.At(s), s, before) && scopes[i] == s;
    }
    if choice == Auto && supportsUser {
      assert scopes[0] in scopes && scopes[1] in scopes;
      assert System in scopes && User in scopes;
    }
  }

  /** A manager that can be addressed, answers truly and deletes exactly what is there. */
  ghost predicate Reliable(m: Manager, scope: Scope, registered: set<Scope>) {
    && m.Manager? && !m.answer.Unknown?
    && (m.answer == Present <==> scope in registered)
    && (m.deletes <==> scope in registered) && (m.deletes ==> m.removes)
  }

  /** With reliable managers an uninstall succeeds exactly when there is something to uninstall, names
      exactly the scopes that held it, and otherwise says that nothing was there. */
  lemma ReliableUninstall(before: set<Scope>, host: Host, choice: Choice, supportsUser: bool, isRoot: bool)
    requires forall s :: Reliable(host.At(s), s, before)
    ensures var scopes := UninstallScopes(choice, supportsUser, isRoot);
            var outcome := UninstallOutcome(Reports(host, scopes));
            if exists s :: s in scopes && s in before
            then outcome.Uninstalled? && forall s :: s in outcome.removed <==> s in scopes && s in before
            else outcome == NothingThere
  {
    var scopes := UninstallScopes(choice, supportsUser, isRoot);
    var reports := Reports(host, scopes);
    forall i | 0 <= i < |scopes|
      ensures !Problem(reports[i]) && (reports[i].removed <==> scopes[i] in before)
    {
      assert Reliable(host.At(scopes[i]), scopes[i], before);
    }
    if s :| s in scopes && s in before {
      var i :| 0 <= i < |scopes| && scopes[i] == s;
      assert reports[i].removed;
      forall s
        ensures s in UninstallOutcome(reports).removed <==> s in scopes && s in before
      {
        if s in scopes && s in before {
          var i :| 0 <= i < |scopes| && scopes[i] == s;
          assert reports[i].removed && reports[i].scope == s;
        }
      }
    }
  }

  // ---- Install ----

  /** Clear the other scope first, then register at this one. `other` is absent on a platform with
      one scope. */
  method InstallAtScope(machine: Machine, target: Scope, tm: Manager, other: Option<Manager>)
    returns (ok: bool, migration: Option<ScopeRemoval>)
    requires tm.Manager? && (other.Some? ==> other.value.Manager?)
    modifies machine
    ensures ok == tm.creates
    ensures migration == if other.Some? then Some(Report(other.value, OtherScope(target), Swept)) else None
    ensures var cleared := if other.Some? && Touches(other.value, Swept) && other.value.removes
                           then old(machine.registered) - {OtherScope(target)} else old(machine.registered);
            machine.registered == if ok then cleared + {target} else cleared
  {
    migration := None;
    if other.Some? {
      var r := RemoveRegistration(machine, OtherScope(target), other.value, Swept);
      migration := Some(r);
    }
    ok := machine.Create(target, tm);
  }

  /** A successful install whose sweep reports neither a leftover nor a doubt leaves exactly one
      registration, the one just made. */
  lemma InstallLeavesOne(before: set<Scope>, after: set<Scope>, target: Scope, other: Manager)
    requires other.Manager? && Honest(other, OtherScope(target), before)
    requires !Problem(Report(other, OtherScope(target), Swept))
    requires after ==
               (if Touches(other, Swept) && other.removes then before - {OtherScope(target)} else before) + {target}
    ensures after == {target}
  {
    forall s | s in after
      ensures s == target
    {
      assert s == target || s == OtherScope(target);
    }
  }

  // ---- Scopes and reports, spelled out ----

  /** Without a user scope there is one scope; else a named one is the only one, and by default both are
      covered, the caller's own first. */
  lemma CoveredScopes(choice: Choice, supportsUser: bool, isRoot: bool)
    ensures UninstallScopes(choice, supportsUser, isRoot) ==
            if !supportsUser || choice == ForceSystem then [System]
            else if choice == ForceUser then [User]
            else if isRoot then [System, User] else [User, System]
  {
  }

  /** A report says removed exactly when a delete was tried and succeeded, and names a problem exactly when
      a registration may be left. */
  lemma ReportMeans(m: Manager, scope: Scope, mode: Mode)
    ensures var r := Report(m, scope, mode);
            && r.scope == scope && (r.found <==> m.Manager? && m.answer == Present)
            && (r.removed <==> m.Manager? && m.deletes && (mode == Requested || m.answer == Present))
            && (Problem(r) <==>
                  match mode
                  case Requested => m.NoManager? || (!m.deletes && m.answer != Absent)
                  case Swept => m.Manager? && (m.answer.Unknown? || (m.answer == Present && !m.deletes)))
  {
  }

  datatype Installation =
    | NotPermitted
    | NotReachable
    | CreateFailed
    | Installed(scope: Scope, migration: Option<ScopeRemoval>)

  /** Register at the scope the choice resolves to, unless the caller may not, with the other one cleared
      first where there is one. */
  method Install(machine: Machine, host: Host, choice: Choice, supportsUser: bool, isRoot: bool)
    returns (result: Installation)
    modifies machine
    ensures result.NotPermitted? <==> supportsUser && choice == ForceSystem && !isRoot
    ensures result.NotPermitted? || result.NotReachable? ==>
              machine.registered == old(machine.registered) && machine.written == old(machine.written)
    ensures result.Installed? ==>
              && result.scope in machine.registered
              && (result.scope == System <==> !supportsUser || choice == ForceSystem || (choice == Auto && isRoot))
              && (result.migration.Some? ==> supportsUser && result.migration.value.scope != result.scope)
    ensures result.Installed? && result.migration.Some? && !Problem(result.migration.value)
            && Honest(host.At(result.migration.value.scope), result.migration.value.scope, old(machine.registered)) ==>
              machine.registered == {result.scope}
  {
    var scope := ResolveScope(choice, supportsUser, isRoot);
    if supportsUser && scope == System && !isRoot {
      return NotPermitted;
    }
    if host.At(scope).NoManager? {
      return NotReachable;
    }
    var other := host.At(OtherScope(scope));
    var sweep := if supportsUser && other.Manager? then Some(other) else None;
    var ok, migration := InstallAtScope(machine, scope, host.At(scope), sweep);
    if !ok {
      return CreateFailed;
    }
    if sweep.Some? && !Problem(migration.value) && Honest(other, OtherScope(scope), old(machine.registered)) {
      InstallLeavesOne(old(machine.registered), machine.registered, scope, other);
    }
    return Installed(scope, migration);
  }
}
