/**
 Tenant domains and members (controller/hub_tenant_admin.go, lines 262-470). Each database
 transaction is one atomic step; the row an update handler reads before its transaction is a
 separate, earlier step, so what it saves may be stale.
 */
module TenantAdmin {
  import opened Wrappers
  import opened EventRuns

  datatype Domain = Domain(tenant: nat, primary: bool)

  datatype Role = Owner | Admin

  /** Members are keyed by tenant and user, as the table's unique index has it. */
  datatype Seat = Seat(tenant: nat, user: nat)

  type Domains = map<nat, Domain>

  type Members = map<Seat, Role>

  // ---------- transactions ----------

  function Cleared(domains: Domains, tenant: nat): Domains {
    map id | id in domains :: if domains[id].tenant == tenant then domains[id].(primary := false) else domains[id]
  }

  predicate HasDomain(domains: Domains, tenant: nat) {
    exists id | id in domains :: domains[id].tenant == tenant
  }

  /** Lines 288-302: the first domain of a tenant is primary, and a new primary clears the rest. */
  function Created(domains: Domains, id: nat, tenant: nat, primary: bool): Domains {
    var wins := primary || !HasDomain(domains, tenant);
    (if wins then Cleared(domains, tenant) else domains)[id := Domain(tenant, wins)]
  }

  /** Lines 338-348: the row read earlier is saved whole. */
  function Saved(domains: Domains, id: nat, row: Domain, primary: Option<bool>): Domains {
    match primary
    case Some(true) => Cleared(domains, row.tenant)[id := row.(primary := true)]
    case Some(false) => domains[id := row.(primary := false)]
    case None => domains[id := row]
  }

  predicate OwnerAvailable(members: Members, seat: Seat) {
    forall s | s in members :: s.tenant == seat.tenant && s.user != seat.user ==> members[s] != Owner
  }

  /** Lines 378-392. */
  function Upserted(members: Members, seat: Seat, role: Role): Option<Members> {
    if role == Owner && !OwnerAvailable(members, seat) then None else Some(members[seat := role])
  }

  /** Lines 424-441: an update without a role saves the role read earlier. */
  function Updated(members: Members, seat: Seat, read: Role, role: Option<Role>): Option<Members> {
    if role == Some(Owner) && !OwnerAvailable(members, seat) then None
    else Some(members[seat := if role.Some? then role.value else read])
  }

  class TenantDb {
    var domains: Domains
    var members: Members

    method CreateDomain(id: nat, tenant: nat, wanted: bool)
      requires id !in domains
      modifies this
      ensures members == old(members) && domains == Created(old(domains), id, tenant, wanted)
      ensures OnePrimary(old(domains)) ==> OnePrimary(domains)
    {
      if OnePrimary(domains) { CreateKeepsPrimary(domains, id, tenant, wanted); }
      var primary := wanted;
      if !HasDomain(domains, tenant) { primary := true; }
      if primary { domains := Cleared(domains, tenant); }
      domains := domains[id := Domain(tenant, primary)];
    }

    method CommitDomain(id: nat, row: Domain, primary: Option<bool>)
      requires id in domains && domains[id].tenant == row.tenant
      modifies this
      ensures members == old(members) && domains == Saved(old(domains), id, row, primary)
      ensures OnePrimary(old(domains)) && SafeSave(old(domains), id, row, primary) ==> OnePrimary(domains)
    {
      SaveKeepsPrimary(domains, id, row, primary);
      var saved := row;
      if primary.Some? {
        if primary.value {
          domains := Cleared(domains, row.tenant);
          saved := saved.(primary := true);
        } else {
          saved := saved.(primary := false);
        }
      }
      domains := domains[id := saved];
    }

    method UpsertMember(seat: Seat, role: Role) returns (ok: bool)
      modifies this
      ensures domains == old(domains) && ok == Upserted(old(members), seat, role).Some?
      ensures members == if ok then Upserted(old(members), seat, role).value else old(members)
      ensures OneOwner(old(members)) ==> OneOwner(members)
    {
      if role == Owner && !OwnerAvailable(members, seat) { return false; }
      members := members[seat := role];
      return true;
    }

    method CommitMember(seat: Seat, read: Role, role: Option<Role>) returns (ok: bool)
      modifies this
      ensures domains == old(domains) && ok == Updated(old(members), seat, read, role).Some?
      ensures members == if ok then Updated(old(members), seat, read, role).value else old(members)
      ensures OneOwner(old(members)) && SafeRole(old(members), seat, read, role) ==> OneOwner(members)
    {
      if role == Some(Owner) && !OwnerAvailable(members, seat) { return false; }
      members := members[seat := if role.Some? then role.value else read];
      return true;
    }
  }

  // ---------- uniqueness ----------

  ghost predicate OnePrimary(domains: Domains) {
    forall a, b | a in domains && b in domains && domains[a].primary && domains[b].primary ::
      domains[a].tenant == domains[b].tenant ==> a == b
  }

  ghost predicate OneOwner(members: Members) {
    forall s, t | s in members && t in members && members[s] == Owner && members[t] == Owner ::
      s.tenant == t.tenant ==> s == t
  }

  /** The update says what primary is to be, or the row it read is still current. */
  ghost predicate SafeSave(domains: Domains, id: nat, row: Domain, primary: Option<bool>) {
    primary.Some? || (id in domains && domains[id] == row)
  }

  ghost predicate SafeRole(members: Members, seat: Seat, read: Role, role: Option<Role>) {
    role.Some? || (seat in members && members[seat] == read)
  }

  lemma CreateKeepsPrimary(domains: Domains, id: nat, tenant: nat, primary: bool)
    requires OnePrimary(domains)
    ensures OnePrimary(Created(domains, id, tenant, primary))
  {
  }

  lemma SaveKeepsPrimary(domains: Domains, id: nat, row: Domain, primary: Option<bool>)
    requires id in domains && domains[id].tenant == row.tenant
    ensures OnePrimary(domains) && SafeSave(domains, id, row, primary) ==> OnePrimary(Saved(domains, id, row, primary))
  {
  }

  /** Another domain of the tenant is primary now. */
  ghost predicate RivalPrimary(domains: Domains, id: nat, tenant: nat) {
    exists d :: d in domains && d != id && domains[d].tenant == tenant && domains[d].primary
  }

  /** Exactly when a save breaks uniqueness: it leaves primary out, the row it read was primary,
      and another domain has become primary since. */
  lemma SaveBreaksExactly(domains: Domains, id: nat, row: Domain, primary: Option<bool>)
    requires OnePrimary(domains) && id in domains && domains[id].tenant == row.tenant
    ensures OnePrimary(Saved(domains, id, row, primary)) <==>
            !(primary.None? && row.primary && RivalPrimary(domains, id, row.tenant))
  {
    var after := Saved(domains, id, row, primary);
    if primary.None? && row.primary && RivalPrimary(domains, id, row.tenant) {
      var d :| d in domains && d != id && domains[d].tenant == row.tenant && domains[d].primary;
      assert after[d].primary && after[id].primary;
    }
  }

  ghost predicate RivalOwner(members: Members, seat: Seat) {
    exists s :: s in members && s != seat && s.tenant == seat.tenant && members[s] == Owner
  }

  lemma UpdateBreaksExactly(members: Members, seat: Seat, read: Role, role: Option<Role>)
    requires OneOwner(members)
    ensures var after := Updated(members, seat, read, role);
            after.Some? ==>
              (OneOwner(after.value) <==> !(role.None? && read == Owner && RivalOwner(members, seat)))
  {
    var after := Updated(members, seat, read, role);
    if role.None? && read == Owner && RivalOwner(members, seat) {
      var s :| s in members && s != seat && s.tenant == seat.tenant && members[s] == Owner;
      assert after.value[s] == Owner && after.value[seat] == Owner;
    }
  }

  // ---------- what the transactions do ----------

  /** A tenant's first domain is primary, and so is one that asks for it; only then do the
      tenant's others stop being primary, and nothing else changes. */
  lemma CreatedExactly(domains: Domains, id: nat, tenant: nat, primary: bool)
    requires id !in domains
    ensures var after := Created(domains, id, tenant, primary);
            && after.Keys == domains.Keys + {id} && after[id].tenant == tenant
            && (after[id].primary <==> primary || forall d :: d in domains ==> domains[d].tenant != tenant)
            && forall d :: d in domains ==>
                 && after[d].tenant == domains[d].tenant
                 && (after[d].primary <==> domains[d].primary && !(after[id].primary && domains[d].tenant == tenant))
  {
    var after := Created(domains, id, tenant, primary);
    assert after.Keys == domains.Keys + {id};
  }

  /** A save writes its row, with the primary flag it was given if any; only making it primary
      touches the tenant's others. */
  lemma SavedExactly(domains: Domains, id: nat, row: Domain, primary: Option<bool>)
    requires id in domains
    ensures var after := Saved(domains, id, row, primary);
            && after.Keys == domains.Keys
            && after[id] == Domain(row.tenant, if primary.Some? then primary.value else row.primary)
            && forall d :: d in domains && d != id ==>
                 && after[d].tenant == domains[d].tenant
                 && (after[d].primary <==> domains[d].primary && !(primary == Some(true) && domains[d].tenant == row.tenant))
  {
    var after := Saved(domains, id, row, primary);
    assert after.Keys == domains.Keys;
  }

  /** A member gets the role asked for, or keeps the one that was read, and no other changes; it is
      refused exactly when it asks to be owner beside another. */
  lemma MembersExactly(members: Members, seat: Seat, read: Role, role: Option<Role>)
    ensures var after := Updated(members, seat, read, role);
            && (after.None? <==> role == Some(Owner) && RivalOwner(members, seat))
            && (after.Some? ==> after.value == members[seat := if role.Some? then role.value else read])
            && (role.Some? ==> Upserted(members, seat, role.value) == after)
  {
    assert !OwnerAvailable(members, seat) <==> RivalOwner(members, seat) by {
      if RivalOwner(members, seat) {
        var s :| s in members && s != seat && s.tenant == seat.tenant && members[s] == Owner;
        assert s.user != seat.user;
      }
    }
  }

  // ---------- every interleaving ----------

  datatype DomainUpdate = DomainUpdate(id: nat, row: Domain, primary: Option<bool>)

  datatype MemberUpdate = MemberUpdate(seat: Seat, read: Role, role: Option<Role>)

  /** The tables and the update requests that have read their row and not committed yet. */
  datatype Sys = Sys(
    domains: Domains, members: Members,
    domainUpdates: map<nat, DomainUpdate>, memberUpdates: map<nat, MemberUpdate>)

  datatype Event =
    | Create(id: nat, tenant: nat, primary: bool)
    | ReadDomain(request: nat, id: nat, setPrimary: Option<bool>)
    | CommitDomain(request: nat)
    | Upsert(seat: Seat, role: Role)
    | ReadMember(request: nat, seat: Seat, setRole: Option<Role>)
    | CommitMember(request: nat)

  predicate Enabled(s: Sys, e: Event) {
    match e
    case Create(id, _, _) => id !in s.domains
    case ReadDomain(r, id, _) => r !in s.domainUpdates && id in s.domains
    case CommitDomain(r) => r in s.domainUpdates
    case Upsert(_, _) => true
    case ReadMember(r, seat, _) => r !in s.memberUpdates && seat in s.members
    case CommitMember(r) => r in s.memberUpdates
  }

  function Next(s: Sys, e: Event): Sys
    requires Enabled(s, e)
  {
    match e
    case Create(id, tenant, primary) => s.(domains := Created(s.domains, id, tenant, primary))
    case ReadDomain(r, id, primary) =>
      s.(domainUpdates := s.domainUpdates[r := DomainUpdate(id, s.domains[id], primary)])
    case CommitDomain(r) =>
      var u := s.domainUpdates[r];
      s.(domains := Saved(s.domains, u.id, u.row, u.primary), domainUpdates := s.domainUpdates - {r})
    case Upsert(seat, role) =>
      var m := Upserted(s.members, seat, role);
      if m.Some? then s.(members := m.value) else s
    case ReadMember(r, seat, role) =>
      s.(memberUpdates := s.memberUpdates[r := MemberUpdate(seat, s.members[seat], role)])
    case CommitMember(r) =>
      var u := s.memberUpdates[r];
      var m := Updated(s.members, u.seat, u.read, u.role);
      s.(members := if m.Some? then m.value else s.members, memberUpdates := s.memberUpdates - {r})
  }

  /** A commit is safe when its request names the field, or nothing changed the row in between. */
  ghost predicate Safe(s: Sys, e: Event)
    requires Enabled(s, e)
  {
    match e
    case CommitDomain(r) =>
      var u := s.domainUpdates[r]; SafeSave(s.domains, u.id, u.row, u.primary)
    case CommitMember(r) =>
      var u := s.memberUpdates[r]; SafeRole(s.members, u.seat, u.read, u.role)
    case _ => true
  }

  /** A pending update is about an existing domain, which keeps its tenant. */
  ghost predicate UpdatesMatch(domains: Domains, updates: map<nat, DomainUpdate>) {
    forall r :: r in updates ==> updates[r].id in domains && domains[updates[r].id].tenant == updates[r].row.tenant
  }

  ghost predicate Unique(s: Sys) {
    OnePrimary(s.domains) && OneOwner(s.members) && UpdatesMatch(s.domains, s.domainUpdates)
  }

  lemma StepKeepsMatch(s: Sys, e: Event)
    requires UpdatesMatch(s.domains, s.domainUpdates) && Enabled(s, e)
    ensures UpdatesMatch(Next(s, e).domains, Next(s, e).domainUpdates)
  {
  }

  /** A commit that leaves the field out, of a row read when it was the primary domain or owner,
      while there is another by now. */
  ghost predicate Breaks(s: Sys, e: Event)
    requires Enabled(s, e)
  {
    match e
    case CommitDomain(r) =>
      var u := s.domainUpdates[r]; u.primary.None? && u.row.primary && RivalPrimary(s.domains, u.id, u.row.tenant)
    case CommitMember(r) =>
      var u := s.memberUpdates[r]; u.role.None? && u.read == Owner && RivalOwner(s.members, u.seat)
    case _ => false
  }

  /** A step keeps one primary domain and one owner per tenant exactly unless it is such a
      commit. */
  lemma StepKeepsUnique(s: Sys, e: Event)
    requires Unique(s) && Enabled(s, e)
    ensures Unique(Next(s, e)) <==> !Breaks(s, e)
  {
    StepKeepsMatch(s, e);
    match e
    case Create(id, tenant, primary) => CreateKeepsPrimary(s.domains, id, tenant, primary);
    case CommitDomain(r) =>
      var u := s.domainUpdates[r];
      SaveBreaksExactly(s.domains, u.id, u.row, u.primary);
    case CommitMember(r) =>
      var u := s.memberUpdates[r];
      UpdateBreaksExactly(s.members, u.seat, u.read, u.role);
    case _ =>
  }

  lemma SafeDoesNotBreak(s: Sys, e: Event)
    requires Unique(s) && Enabled(s, e) && Safe(s, e)
    ensures !Breaks(s, e)
  {
  }

  // ---------- every run ----------

  ghost function May(): (Sys, Event) -> bool {
    (s: Sys, e: Event) => Enabled(s, e)
  }

  ghost function Move(): (Sys, Event) -> Sys {
    (s: Sys, e: Event) => if Enabled(s, e) then Next(s, e) else s
  }

  ghost function OneEach(): Sys -> bool {
    (s: Sys) => Unique(s)
  }

  ghost function Whole(): (Sys, Event) -> bool {
    (s: Sys, e: Event) => Enabled(s, e) && !Breaks(s, e)
  }

  lemma StepsExact()
    ensures Exact(May(), Move(), OneEach(), Whole())
  {
    forall s, e | Unique(s) && Enabled(s, e) ensures Unique(Next(s, e)) <==> !Breaks(s, e) {
      StepKeepsUnique(s, e);
    }
  }

  /** However reads and transactions interleave, every tenant has one primary domain and one owner
      in all states of a run exactly when no commit breaks. */
  lemma UniqueForever(s: Sys, events: seq<Event>)
    requires Runs(May(), Move(), s, events) && Unique(s)
    ensures Always(Move(), OneEach(), s, events) <==> EachStep(Move(), Whole(), s, events)
  {
    StepsExact();
    AlwaysExactly(May(), Move(), OneEach(), Whole(), s, events);
  }

  // ---------- a tenant keeps a primary domain ----------

  ghost predicate HasPrimary(domains: Domains, tenant: nat) {
    exists d :: d in domains && domains[d].tenant == tenant && domains[d].primary
  }

  /** Every tenant that has a domain has a primary one. */
  ghost predicate AllHavePrimary(domains: Domains) {
    forall d :: d in domains ==> HasPrimary(domains, domains[d].tenant)
  }

  lemma CreateHasPrimary(domains: Domains, id: nat, tenant: nat, primary: bool)
    requires AllHavePrimary(domains) && id !in domains
    ensures AllHavePrimary(Created(domains, id, tenant, primary))
  {
    var after := Created(domains, id, tenant, primary);
    CreatedExactly(domains, id, tenant, primary);
    forall d | d in after ensures HasPrimary(after, after[d].tenant) {
      if after[d].tenant == tenant && after[id].primary {
        assert after[id].tenant == after[d].tenant;
      } else {
        var t := after[d].tenant;
        assert HasPrimary(domains, t);
        var p :| p in domains && domains[p].tenant == t && domains[p].primary;
        assert after[p].primary;
      }
    }
  }

  /** The save leaves the tenant with a primary domain: this one or another. */
  ghost predicate LeavesPrimary(domains: Domains, u: DomainUpdate) {
    || (if u.primary.Some? then u.primary.value else u.row.primary)
    || RivalPrimary(domains, u.id, u.row.tenant)
  }

  lemma SaveHasPrimary(domains: Domains, u: DomainUpdate)
    requires AllHavePrimary(domains) && u.id in domains && domains[u.id].tenant == u.row.tenant
    ensures AllHavePrimary(Saved(domains, u.id, u.row, u.primary)) <==> LeavesPrimary(domains, u)
  {
    var after := Saved(domains, u.id, u.row, u.primary);
    SavedExactly(domains, u.id, u.row, u.primary);
    if LeavesPrimary(domains, u) {
      forall d | d in after ensures HasPrimary(after, after[d].tenant) {
        SavePrimaryOf(domains, u, d);
      }
    } else {
      assert !HasPrimary(after, after[u.id].tenant);
    }
  }

  lemma SavePrimaryOf(domains: Domains, u: DomainUpdate, d: nat)
    requires AllHavePrimary(domains) && u.id in domains && domains[u.id].tenant == u.row.tenant
    requires LeavesPrimary(domains, u) && d in domains
    ensures var after := Saved(domains, u.id, u.row, u.primary); d in after && HasPrimary(after, after[d].tenant)
  {
    var after := Saved(domains, u.id, u.row, u.primary);
    SavedExactly(domains, u.id, u.row, u.primary);
    var t := after[d].tenant;
    if t == u.row.tenant {
      if after[u.id].primary {
        assert after[u.id].tenant == t;
      } else {
        var p :| p in domains && p != u.id && domains[p].tenant == t && domains[p].primary;
        assert after[p].primary;
      }
    } else {
      assert HasPrimary(domains, t);
      var p :| p in domains && domains[p].tenant == t && domains[p].primary;
      assert after[p].primary;
    }
  }

  ghost function Served(): Sys -> bool {
    (s: Sys) => AllHavePrimary(s.domains) && UpdatesMatch(s.domains, s.domainUpdates)
  }

  ghost function Leaves(): (Sys, Event) -> bool {
    (s: Sys, e: Event) => e.CommitDomain? && e.request in s.domainUpdates ==> LeavesPrimary(s.domains, s.domainUpdates[e.request])
  }

  /** However requests interleave, every tenant with a domain has a primary one in all states of a
      run exactly when every save of a domain leaves it one. Creations always do. */
  lemma PrimaryForever(s: Sys, events: seq<Event>)
    requires Runs(May(), Move(), s, events) && Served()(s)
    ensures Always(Move(), Served(), s, events) <==> EachStep(Move(), Leaves(), s, events)
  {
    var may, move, inv, good := May(), Move(), Served(), Leaves();
    forall s, e | inv(s) && may(s, e) ensures inv(move(s, e)) <==> good(s, e) {
      StepKeepsMatch(s, e);
      if e.Create? { CreateHasPrimary(s.domains, e.id, e.tenant, e.primary); }
      if e.CommitDomain? { SaveHasPrimary(s.domains, s.domainUpdates[e.request]); }
    }
    AlwaysExactly(may, move, inv, good, s, events);
  }

  /** Requests that name the field they are about. */
  ghost predicate Explicit(e: Event) {
    (e.ReadDomain? ==> e.setPrimary.Some?) && (e.ReadMember? ==> e.setRole.Some?)
  }

  ghost predicate PendingExplicit(s: Sys) {
    && (forall r :: r in s.domainUpdates ==> s.domainUpdates[r].primary.Some?)
    && (forall r :: r in s.memberUpdates ==> s.memberUpdates[r].role.Some?)
  }

  lemma ExplicitStep(s: Sys, e: Event)
    requires Unique(s) && PendingExplicit(s) && Enabled(s, e) && Explicit(e)
    ensures Unique(Next(s, e)) && PendingExplicit(Next(s, e))
  {
    StepKeepsUnique(s, e);
  }

  /** However their reads and transactions interleave, explicit requests keep uniqueness. */
  lemma {:induction false} ExplicitRequestsKeepUnique(s: Sys, events: seq<Event>)
    requires Runs(May(), Move(), s, events) && Unique(s) && PendingExplicit(s)
    requires forall i :: 0 <= i < |events| ==> Explicit(events[i])
    ensures Always(Move(), OneEach(), s, events)
    decreases |events|
  {
    if events != [] {
      ExplicitStep(s, events[0]);
      ExplicitRequestsKeepUnique(Next(s, events[0]), events[1..]);
    }
  }

  /** A commit comes right after the read of its own request: the handler is one atomic step. */
  ghost predicate Follows(last: Option<Event>, e: Event) {
    && (e.CommitDomain? ==> last.Some? && last.value.ReadDomain? && last.value.request == e.request)
    && (e.CommitMember? ==> last.Some? && last.value.ReadMember? && last.value.request == e.request)
  }

  ghost predicate AtomicHandlers(last: Option<Event>, events: seq<Event>)
    decreases |events|
  {
    events == [] || (Follows(last, events[0]) && AtomicHandlers(Some(events[0]), events[1..]))
  }

  /** What the last event read is still what the table holds. */
  ghost predicate JustRead(s: Sys, last: Option<Event>) {
    && (last.Some? && last.value.ReadDomain? ==>
          && last.value.request in s.domainUpdates
          && var u := s.domainUpdates[last.value.request]; u.id in s.domains && s.domains[u.id] == u.row)
    && (last.Some? && last.value.ReadMember? ==>
          && last.value.request in s.memberUpdates
          && var u := s.memberUpdates[last.value.request]; u.seat in s.members && s.members[u.seat] == u.read)
  }

  lemma AtomicStep(s: Sys, last: Option<Event>, e: Event)
    requires Unique(s) && JustRead(s, last) && Enabled(s, e) && Follows(last, e)
    ensures Unique(Next(s, e)) && JustRead(Next(s, e), Some(e))
  {
    SafeDoesNotBreak(s, e);
    StepKeepsUnique(s, e);
  }

  /** With each handler one atomic step, every run keeps one primary domain and one owner per
      tenant, whatever the requests say or leave out. */
  lemma {:induction false} AtomicHandlersKeepUnique(s: Sys, last: Option<Event>, events: seq<Event>)
    requires Runs(May(), Move(), s, events) && Unique(s) && JustRead(s, last) && AtomicHandlers(last, events)
    ensures Always(Move(), OneEach(), s, events)
    decreases |events|
  {
    if events != [] {
      AtomicStep(s, last, events[0]);
      AtomicHandlersKeepUnique(Next(s, events[0]), Some(events[0]), events[1..]);
    }
  }

  /** A status-only update that read its domain while it was primary, and commits after another
      domain was made primary, leaves the tenant with two primary domains. */
  lemma StaleSaveBreaks(tenant: nat)
    ensures var s0 := Sys(map[1 := Domain(tenant, true), 2 := Domain(tenant, false)], map[], map[], map[]);
            var s1 := Next(s0, ReadDomain(7, 1, None));
            Enabled(s1, ReadDomain(8, 2, Some(true))) &&
            var s2 := Next(s1, ReadDomain(8, 2, Some(true)));
            Enabled(s2, CommitDomain(8)) &&
            var s3 := Next(s2, CommitDomain(8));
            Enabled(s3, CommitDomain(7)) &&
            Unique(s0) && Unique(s3) && !OnePrimary(Next(s3, CommitDomain(7)).domains)
  {
    var s0 := Sys(map[1 := Domain(tenant, true), 2 := Domain(tenant, false)], map[], map[], map[]);
    var s1 := Next(s0, ReadDomain(7, 1, None));
    var s2 := Next(s1, ReadDomain(8, 2, Some(true)));
    var s3 := Next(s2, CommitDomain(8));
    var s4 := Next(s3, CommitDomain(7));
    assert s4.domains[1].primary && s4.domains[2].primary;
  }
}
