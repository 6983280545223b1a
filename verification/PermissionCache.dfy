/** The cache-aside protocol of one user's permissions, with clients interleaved and the database
    changing under them. A request reads the user document first, often long before it asks the
    cache; only the role document is read after a miss. */
module PermissionCache {
  import opened Optional
  import opened ExpiringKeys
  import opened Permissions

  const TTL := 300

  type Client = nat

  /** The user document and the roles collection. */
  datatype Data = Data(user: User, roles: map<string, seq<Permission>>)

  datatype Version = Version(since: int, data: Data)

  function RoleReplyOf(user: User, roles: map<string, seq<Permission>>): RoleReply {
    if user.customRoleId.Some? && user.customRoleId.value in roles then Found(roles[user.customRoleId.value])
    else Missing
  }

  function Held(user: User, roles: map<string, seq<Permission>>): set<Permission> {
    Effective(user, RoleReplyOf(user, roles))
  }

  /** When a document was read, and in which version of the database. */
  datatype Read = Read(version: nat, at: int)

  /** A permission set with the reads it was computed from; `failed` if loading the role threw. */
  datatype Answer = Answer(permissions: set<Permission>, user: Read, role: Read, failed: bool)

  datatype Pc =
    | Idle
    | HasUser(user: User, read: Read)   // GET next
    | Missed(user: User, read: Read)    // the role is read next
    | Loaded(answer: Answer)            // SET next

  datatype Event =
    | Change(data: Data, now: int)
    | ReadUser(client: Client, now: int)
    | Resolve(client: Client, now: int)
    | Load(client: Client, fails: bool, now: int)
    | Store(client: Client, now: int)
    | Invalidate(now: int)

  datatype Served = Served(time: int, answer: Answer)

  /** The database versions so far, the cache entry, the clients, and all answers given. `span`
      bounds the time from a client's reading the user to its SET. */
  datatype State = State(span: nat, versions: seq<Version>, cache: Keys<(), Answer>,
                         pcs: map<Client, Pc>, served: seq<Served>, clock: int)

  function New(span: nat, data: Data): State { State(span, [Version(0, data)], map[], map[], [], 0) }

  function PcOf(s: State, c: Client): Pc {
    if c in s.pcs then s.pcs[c] else Idle
  }

  /** When the client read the user it is working for. */
  function UserRead(pc: Pc): Option<Read> {
    match pc
    case Idle => None
    case HasUser(_, read) => Some(read)
    case Missed(_, read) => Some(read)
    case Loaded(answer) => Some(answer.user)
  }

  predicate Legal(s: State, e: Event) {
    && s.clock <= e.now && s.versions != []
    && match e
       case ReadUser(c, _) => PcOf(s, c) == Idle
       case Resolve(c, _) => PcOf(s, c).HasUser?
       case Load(c, _, _) => PcOf(s, c).Missed?
       case Store(c, now) => PcOf(s, c).Loaded? && now <= PcOf(s, c).answer.user.at + s.span
       case _ => true
  }

  function Last(s: State): nat
    requires s.versions != []
  {
    |s.versions| - 1
  }

  function Next(s: State, e: Event): State
    requires Legal(s, e)
  {
    match e
    case Change(data, now) => s.(versions := s.versions + [Version(now, data)], clock := now)
    case ReadUser(c, now) =>
      s.(pcs := s.pcs[c := HasUser(s.versions[Last(s)].data.user, Read(Last(s), now))], clock := now)
    case Resolve(c, now) =>
      var cached := Get(s.cache, (), now);
      if cached.Some? then
        s.(pcs := s.pcs[c := Idle], served := s.served + [Served(now, cached.value)], clock := now)
      else
        s.(pcs := s.pcs[c := Missed(PcOf(s, c).user, PcOf(s, c).read)], clock := now)
    case Load(c, fails, now) =>
      var permissions := if fails then Effective(PcOf(s, c).user, Failing)
                         else Held(PcOf(s, c).user, s.versions[Last(s)].data.roles);
      s.(pcs := s.pcs[c := Loaded(Answer(permissions, PcOf(s, c).read, Read(Last(s), now), fails))], clock := now)
    case Store(c, now) =>
      var answer := PcOf(s, c).answer;
      s.(cache := SetEx(s.cache, (), answer, TTL, now), pcs := s.pcs[c := Idle],
         served := s.served + [Served(now, answer)], clock := now)
    case Invalidate(now) => s.(cache := s.cache - {()}, clock := now)
  }

  predicate Trace(s: State, es: seq<Event>)
    decreases |es|
  {
    es == [] || (Legal(s, es[0]) && Trace(Next(s, es[0]), es[1..]))
  }

  function Exec(s: State, es: seq<Event>): State
    requires Trace(s, es)
    decreases |es|
  {
    if es == [] then s else Exec(Next(s, es[0]), es[1..])
  }

  lemma {:induction false} OneEvent(s: State, e: Event)
    requires Legal(s, e)
    ensures Trace(s, [e]) && Exec(s, [e]) == Next(s, e)
  {
    assert [e][1..] == [];
  }

  lemma {:induction false} EventsCons(s: State, e: Event, es: seq<Event>)
    requires Legal(s, e) && Trace(Next(s, e), es)
    ensures Trace(s, [e] + es) && Exec(s, [e] + es) == Exec(Next(s, e), es)
  {
    assert ([e] + es)[1..] == es;
  }

  // ---------------------------------------------------------------- what an answer is

  /** The version was the current one when it was read. */
  ghost predicate WasCurrent(versions: seq<Version>, r: Read) {
    && r.version < |versions| && versions[r.version].since <= r.at
    && (r.version + 1 < |versions| ==> r.at <= versions[r.version + 1].since)
  }

  ghost predicate ReadOk(s: State, r: Read) { WasCurrent(s.versions, r) && r.at <= s.clock }

  /** The user's grants and denials of one read and the role of a later one, or nothing. */
  ghost predicate AnswerOk(s: State, a: Answer) {
    && ReadOk(s, a.user) && ReadOk(s, a.role)
    && a.user.at <= a.role.at && a.user.version <= a.role.version
    && a.permissions == if a.failed then {}
                        else Held(s.versions[a.user.version].data.user, s.versions[a.role.version].data.roles)
  }

  ghost predicate ServedOk(s: State, v: Served) {
    && AnswerOk(s, v.answer)
    && v.time - 1000 * TTL - s.span <= v.answer.user.at && v.answer.role.at <= v.time
  }

  ghost predicate PcOk(s: State, pc: Pc) {
    match pc
    case Idle => true
    case HasUser(user, read) => ReadOk(s, read) && user == s.versions[read.version].data.user
    case Missed(user, read) => ReadOk(s, read) && user == s.versions[read.version].data.user
    case Loaded(answer) => AnswerOk(s, answer)
  }

  ghost predicate CacheOk(s: State) {
    () in s.cache ==>
      && AnswerOk(s, s.cache[()].value) && s.cache[()].expiresAt.Some?
      && s.cache[()].expiresAt.value <= s.cache[()].value.user.at + s.span + 1000 * TTL
  }

  ghost predicate StateOk(s: State) {
    && s.versions != [] && s.versions[Last(s)].since <= s.clock
    && (forall c :: PcOk(s, PcOf(s, c)))
    && CacheOk(s)
    && (forall i | 0 <= i < |s.served| :: ServedOk(s, s.served[i]))
  }

  lemma {:induction false} StillOk(s: State, e: Event, a: Answer)
    requires Legal(s, e) && AnswerOk(s, a)
    ensures AnswerOk(Next(s, e), a)
  {
  }

  lemma {:induction false} StillPcOk(s: State, e: Event, pc: Pc)
    requires Legal(s, e) && PcOk(s, pc)
    ensures PcOk(Next(s, e), pc)
  {
    if pc.Loaded? {
      StillOk(s, e, pc.answer);
    }
  }

  lemma {:induction false} ReadsCurrent(s: State, e: Event)
    requires StateOk(s) && Legal(s, e) && (e.ReadUser? || e.Load?)
    ensures ReadOk(Next(s, e), Read(Last(s), e.now)) && Next(s, e).versions == s.versions
  {
  }

  lemma {:induction false} LoadsOk(s: State, e: Event)
    requires StateOk(s) && Legal(s, e) && e.Load?
    ensures PcOk(Next(s, e), PcOf(Next(s, e), e.client))
  {
    assert PcOk(s, PcOf(s, e.client));
    StillPcOk(s, e, PcOf(s, e.client));
    ReadsCurrent(s, e);
  }

  lemma {:induction false} ResolvesOk(s: State, e: Event)
    requires StateOk(s) && Legal(s, e) && e.Resolve?
    ensures PcOk(Next(s, e), PcOf(Next(s, e), e.client))
  {
    assert PcOk(s, PcOf(s, e.client));
    StillPcOk(s, e, PcOf(s, e.client));
  }

  /** The thread an event is about, with what it has now; the others are where they were. */
  lemma {:induction false} NextPcOk(s: State, e: Event, c: Client)
    requires StateOk(s) && Legal(s, e)
    ensures PcOk(Next(s, e), PcOf(Next(s, e), c))
  {
    if PcOf(Next(s, e), c) == PcOf(s, c) {
      assert PcOk(s, PcOf(s, c));
      StillPcOk(s, e, PcOf(s, c));
    } else {
      match e
      case ReadUser(_, _) => ReadsCurrent(s, e);
      case Resolve(_, _) => ResolvesOk(s, e);
      case Load(_, _, _) => LoadsOk(s, e);
      case _ =>
    }
  }

  lemma {:induction false} NextCacheOk(s: State, e: Event)
    requires StateOk(s) && Legal(s, e)
    ensures CacheOk(Next(s, e))
  {
    if e.Store? {
      assert PcOk(s, PcOf(s, e.client));
      StillOk(s, e, PcOf(s, e.client).answer);
    } else if () in s.cache {
      StillOk(s, e, s.cache[()].value);
    }
  }

  lemma {:induction false} NextServedOk(s: State, e: Event, i: nat)
    requires StateOk(s) && Legal(s, e) && i < |Next(s, e).served|
    ensures ServedOk(Next(s, e), Next(s, e).served[i])
  {
    if i < |s.served| {
      assert ServedOk(s, s.served[i]);
      StillOk(s, e, s.served[i].answer);
    } else if e.Store? {
      assert PcOk(s, PcOf(s, e.client));
      StillOk(s, e, PcOf(s, e.client).answer);
    } else {
      StillOk(s, e, s.cache[()].value);
    }
  }

  lemma {:induction false} NextOk(s: State, e: Event)
    requires StateOk(s) && Legal(s, e)
    ensures StateOk(Next(s, e))
  {
    forall c ensures PcOk(Next(s, e), PcOf(Next(s, e), c)) { NextPcOk(s, e, c); }
    NextCacheOk(s, e);
    forall i | 0 <= i < |Next(s, e).served| ensures ServedOk(Next(s, e), Next(s, e).served[i]) {
      NextServedOk(s, e, i);
    }
  }

  lemma {:induction false} ExecOk(s: State, es: seq<Event>)
    requires StateOk(s) && Trace(s, es)
    ensures StateOk(Exec(s, es)) && Exec(s, es).span == s.span
    decreases |es|
  {
    if es != [] {
      NextOk(s, es[0]);
      ExecOk(Next(s, es[0]), es[1..]);
    }
  }

  /** Every answer ever given is role and grant less deny, the user as it stood at one moment and
      the role as it stood at a later one, both at most the cache lifetime plus one request's span
      ago; or it is empty, because loading the role failed within that time. */
  lemma {:induction false} AnswersAreRecent(span: nat, data: Data, es: seq<Event>, a: Served)
    requires Trace(New(span, data), es) && a in Exec(New(span, data), es).served
    ensures var vs := Exec(New(span, data), es).versions;
            && WasCurrent(vs, a.answer.user) && WasCurrent(vs, a.answer.role)
            && a.time - 300_000 - span <= a.answer.user.at <= a.answer.role.at <= a.time
            && a.answer.user.version <= a.answer.role.version
            && a.answer.permissions == if a.answer.failed then {}
                 else Held(vs[a.answer.user.version].data.user, vs[a.answer.role.version].data.roles)
  {
    ExecOk(New(span, data), es);
    var s := Exec(New(span, data), es);
    var i :| 0 <= i < |s.served| && s.served[i] == a;
    assert ServedOk(s, s.served[i]);
  }

  // ---------------------------------------------------------------- the data of one moment

  /** What the user schema stores: one of the four system roles. */
  predicate Storable(user: User) { user.role in {"owner", "admin", "member", "viewer"} }

  lemma {:induction false} StorableNeedsNoRole(user: User, roles1: map<string, seq<Permission>>,
                                               roles2: map<string, seq<Permission>>)
    requires Storable(user)
    ensures Held(user, roles1) == Held(user, roles2)
  {
    assert SystemRole(user.role).Some?;
  }

  /** For every user the schema admits, each answer is the data of a single moment, at most the cache
      lifetime plus one request's span ago: that of reading the user; or it is empty, because
      loading failed within that time. */
  lemma {:induction false} StorableAnswersAreOneMoment(span: nat, data: Data, es: seq<Event>, a: Served)
    requires Trace(New(span, data), es) && a in Exec(New(span, data), es).served
    requires forall i | 0 <= i < |Exec(New(span, data), es).versions| ::
               Storable(Exec(New(span, data), es).versions[i].data.user)
    ensures var vs := Exec(New(span, data), es).versions;
            && WasCurrent(vs, a.answer.user) && a.time - 300_000 - span <= a.answer.user.at <= a.time
            && var read := vs[a.answer.user.version].data;
               a.answer.permissions == if a.answer.failed then {} else Held(read.user, read.roles)
  {
    AnswersAreRecent(span, data, es, a);
    var vs := Exec(New(span, data), es).versions;
    StorableNeedsNoRole(vs[a.answer.user.version].data.user,
                        vs[a.answer.user.version].data.roles, vs[a.answer.role.version].data.roles);
  }

  // A role outside the four, which only the role document can give a meaning, is read in two steps.

  /** A set computed from the user of version `u` and the roles of version `r` is what the user
      held in some version between the two. */
  ghost predicate OneMoment(vs: seq<Version>, u: nat, r: nat)
    requires u <= r < |vs|
  {
    exists v :: u <= v <= r && Held(vs[u].data.user, vs[r].data.roles) == Held(vs[v].data.user, vs[v].data.roles)
  }

  /** Which documents a change writes. */
  datatype Touch = Touch(user: bool, roles: bool)

  /** Nothing changes but what the touches say. */
  ghost predicate Follows(vs: seq<Version>, touches: seq<Touch>) {
    && |vs| == |touches|
    && forall k | 0 < k < |vs| ::
         && (vs[k].data.user != vs[k - 1].data.user ==> touches[k].user)
         && (vs[k].data.roles != vs[k - 1].data.roles ==> touches[k].roles)
  }

  /** Between the two reads, no change of the user comes before or with a change of the roles. */
  predicate RolesFirst(touches: seq<Touch>, u: nat, r: nat)
    requires u <= r < |touches|
  {
    forall i, j | u < i <= j <= r :: !(touches[i].user && touches[j].roles)
  }

  lemma {:induction false} UserKept(vs: seq<Version>, touches: seq<Touch>, u: nat, v: nat)
    requires Follows(vs, touches) && u <= v < |vs| && forall k | u < k <= v :: !touches[k].user
    ensures vs[u].data.user == vs[v].data.user
    decreases v - u
  {
    if u < v {
      UserKept(vs, touches, u, v - 1);
    }
  }

  lemma {:induction false} CoexistingVersion(vs: seq<Version>, touches: seq<Touch>, u: nat, r: nat) returns (v: nat)
    requires Follows(vs, touches) && u <= r < |vs|
    ensures u <= v <= r && vs[v].data.roles == vs[r].data.roles && (v == u || touches[v].roles)
    decreases r - u
  {
    if u == r || touches[r].roles {
      v := r;
    } else {
      v := CoexistingVersion(vs, touches, u, r - 1);
    }
  }

  /** The user's grant changes at version `i`, the role at version `j`. */
  function Torn(n: nat, i: nat, j: nat): seq<Version> {
    seq(n, k requires 0 <= k => Version(k, Data(User("u", "custom", Some("r"), [if k < i then "old" else "new"], []),
                                                map["r" := [if k < j then "before" else "after"]])))
  }

  lemma {:induction false} CustomHeld(grant: Permission, role: Permission, p: Permission)
    ensures p in Held(User("u", "custom", Some("r"), [grant], []), map["r" := [role]]) <==> p == grant || p == role
  {
    assert SystemRole("custom").None?;
    assert Elements([grant]) == {grant} && Elements([role]) == {role} && Elements([]) == {};
  }

  lemma {:induction false} TornFollows(touches: seq<Touch>, i: nat, j: nat)
    requires 0 < i <= j < |touches| && touches[i].user && touches[j].roles
    ensures Follows(Torn(|touches|, i, j), touches)
  {
  }

  lemma {:induction false} TornIsNoMoment(n: nat, u: nat, r: nat, i: nat, j: nat)
    requires u < i <= j <= r < n
    ensures !OneMoment(Torn(n, i, j), u, r)
  {
    var vs := Torn(n, i, j);
    CustomHeld("old", "after", "old");
    CustomHeld("old", "after", "after");
    forall v | u <= v <= r ensures Held(vs[u].data.user, vs[r].data.roles) != Held(vs[v].data.user, vs[v].data.roles) {
      if v < i {
        CustomHeld("old", "before", "after");
      } else if v < j {
        CustomHeld("new", "before", "old");
      } else {
        CustomHeld("new", "after", "old");
      }
    }
  }

  /** Exactly when the two reads cannot be told from one, for users of any role: whatever is written,
      the set is what the user held at one moment between the reads if and only if every change of
      the roles between them precedes every change of the user. (The schema refuses the roles for
      which it can fail.) */
  lemma {:induction false} OneMomentIff(touches: seq<Touch>, u: nat, r: nat)
    requires u <= r < |touches|
    ensures (forall vs | Follows(vs, touches) :: OneMoment(vs, u, r)) <==> RolesFirst(touches, u, r)
  {
    if RolesFirst(touches, u, r) {
      forall vs | Follows(vs, touches) ensures OneMoment(vs, u, r) {
        var v := CoexistingVersion(vs, touches, u, r);
        UserKept(vs, touches, u, v);
      }
    } else {
      var i, j :| u < i <= j <= r && touches[i].user && touches[j].roles;
      TornFollows(touches, i, j);
      TornIsNoMoment(|touches|, u, r, i, j);
    }
  }

  /** Two versions of the roles give a user the same permissions if and only if they agree on all
      that is neither granted nor denied to the user directly. */
  lemma {:induction false} SameHeldIff(user: User, roles1: map<string, seq<Permission>>,
                                       roles2: map<string, seq<Permission>>)
    ensures Held(user, roles1) == Held(user, roles2) <==>
            forall p | p !in user.grant && p !in user.deny ::
              p in RolePermissions(user, RoleReplyOf(user, roles1)).value
              <==> p in RolePermissions(user, RoleReplyOf(user, roles2)).value
  {
    var held1, held2 := Held(user, roles1), Held(user, roles2);
    assert held1 == held2 <==> forall p :: p in held1 <==> p in held2;
    forall p | p !in user.grant && p !in user.deny
      ensures p in held1 <==> p in RolePermissions(user, RoleReplyOf(user, roles1)).value
      ensures p in held2 <==> p in RolePermissions(user, RoleReplyOf(user, roles2)).value
    {
    }
  }

  // ---------------------------------------------------------------- invalidation

  /** The client works for a user read before the current version, and may still store the result. */
  ghost predicate HoldsOutdated(s: State, c: Client, now: int)
    requires s.versions != []
  {
    var read := UserRead(PcOf(s, c));
    read.Some? && read.value.version < Last(s) && now <= read.value.at + s.span
  }

  /** Nothing from before version `v` can be served any more. */
  ghost predicate NoneOlder(s: State, v: nat) {
    && |s.versions| > v
    && (forall c | UserRead(PcOf(s, c)).Some? ::
          UserRead(PcOf(s, c)).value.version >= v || s.clock > UserRead(PcOf(s, c)).value.at + s.span)
    && (() in s.cache ==> s.cache[()].value.user.version >= v)
  }

  lemma {:induction false} NextNoneOlder(s: State, e: Event, v: nat)
    requires NoneOlder(s, v) && Legal(s, e)
    ensures NoneOlder(Next(s, e), v)
    ensures s.served <= Next(s, e).served
    ensures forall i | |s.served| <= i < |Next(s, e).served| :: Next(s, e).served[i].answer.user.version >= v
  {
    var s' := Next(s, e);
    forall c | UserRead(PcOf(s', c)).Some?
      ensures UserRead(PcOf(s', c)).value.version >= v || s'.clock > UserRead(PcOf(s', c)).value.at + s.span
    {
      assert UserRead(PcOf(s', c)) == UserRead(PcOf(s, c)) || (e.ReadUser? && e.client == c);
    }
  }

  lemma {:induction false} ServesNoneOlder(s: State, es: seq<Event>, v: nat)
    requires NoneOlder(s, v) && Trace(s, es)
    ensures s.served <= Exec(s, es).served
    ensures forall i | |s.served| <= i < |Exec(s, es).served| :: Exec(s, es).served[i].answer.user.version >= v
    decreases |es|
  {
    if es != [] {
      NextNoneOlder(s, es[0], v);
      ServesNoneOlder(Next(s, es[0]), es[1..], v);
    }
  }

  /** The run serves, after those already given in `s`, an answer whose user is older than version `v`. */
  ghost predicate ServesOlder(s: State, es: seq<Event>, v: nat) {
    && Trace(s, es)
    && exists i :: |s.served| <= i < |Exec(s, es).served| && Exec(s, es).served[i].answer.user.version < v
  }

  lemma {:induction false} StoreServes(s: State, c: Client, now: int, v: nat)
    requires Legal(s, Store(c, now)) && PcOf(s, c).answer.user.version < v
    ensures ServesOlder(s, [Store(c, now)], v)
  {
    var es := [Store(c, now)];
    assert es[1..] == [];
    assert Exec(s, es) == Next(s, es[0]);
    assert Exec(s, es).served[|s.served|].answer.user.version < v;
  }

  lemma {:induction false} ServesCons(s: State, e: Event, es: seq<Event>, v: nat)
    requires Legal(s, e) && Next(s, e).served == s.served && ServesOlder(Next(s, e), es, v)
    ensures ServesOlder(s, [e] + es, v)
  {
    assert ([e] + es)[1..] == es;
    var i :| |s.served| <= i < |Exec(Next(s, e), es).served| && Exec(Next(s, e), es).served[i].answer.user.version < v;
    assert Exec(s, [e] + es).served[i].answer.user.version < v;
  }

  /** An outdated client that still finds no entry completes its load and serves the old data. */
  lemma {:induction false} OutdatedServes(s: State, c: Client, now: int) returns (es: seq<Event>)
    requires s.versions != [] && s.clock <= now && () !in s.cache && HoldsOutdated(s, c, now)
    ensures ServesOlder(s, es, Last(s))
    decreases match PcOf(s, c) case HasUser(_, _) => 2 case Missed(_, _) => 1 case _ => 0
  {
    match PcOf(s, c)
    case HasUser(_, _) =>
      es := OutdatedServes(Next(s, Resolve(c, now)), c, now);
      ServesCons(s, Resolve(c, now), es, Last(s));
      es := [Resolve(c, now)] + es;
    case Missed(_, _) =>
      es := OutdatedServes(Next(s, Load(c, false, now)), c, now);
      ServesCons(s, Load(c, false, now), es, Last(s));
      es := [Load(c, false, now)] + es;
    case Loaded(_) =>
      StoreServes(s, c, now, Last(s));
      es := [Store(c, now)];
  }

  lemma {:induction false} NoneOutdated(s: State, now: int)
    requires Legal(s, Invalidate(now)) && forall c :: !HoldsOutdated(s, c, now)
    ensures NoneOlder(Next(s, Invalidate(now)), Last(s))
  {
    var s0 := Next(s, Invalidate(now));
    forall c | UserRead(PcOf(s0, c)).Some?
      ensures UserRead(PcOf(s0, c)).value.version >= Last(s) || s0.clock > UserRead(PcOf(s0, c)).value.at + s0.span
    {
      assert PcOf(s0, c) == PcOf(s, c) && !HoldsOutdated(s, c, now);
    }
  }

  /** Invalidating works if and only if no client is on its way with an outdated user: some
      continuation serves permissions computed from a user older than the invalidation's exactly
      when some client holds one and still has time to store what it makes of it. */
  lemma {:induction false} OutdatedAfterInvalidateIff(s: State, now: int)
    requires StateOk(s) && Legal(s, Invalidate(now))
    ensures (exists es :: ServesOlder(Next(s, Invalidate(now)), es, Last(s))) <==> (exists c :: HoldsOutdated(s, c, now))
  {
    var s0 := Next(s, Invalidate(now));
    if c :| HoldsOutdated(s, c, now) {
      assert PcOf(s0, c) == PcOf(s, c) && HoldsOutdated(s0, c, now);
      var es := OutdatedServes(s0, c, now);
    } else {
      NoneOutdated(s, now);
      forall es | Trace(s0, es) ensures !ServesOlder(s0, es, Last(s)) {
        ServesNoneOlder(s0, es, Last(s));
      }
    }
  }

  /** And what such a client stores is then served to others for the whole lifetime of the entry,
      however new the user they read. */
  lemma {:induction false} OutdatedSpreads(s: State, c: Client, d: Client, now: int, t: int)
    requires Legal(s, Store(c, now)) && PcOf(s, d) == Idle && now <= t <= now + 300_000
    ensures var es := [Store(c, now), ReadUser(d, t), Resolve(d, t)];
            && Trace(s, es) && |Exec(s, es).served| == |s.served| + 2
            && Exec(s, es).served[|s.served| + 1] == Served(t, PcOf(s, c).answer)
  {
    var s1 := Next(s, Store(c, now));
    assert PcOf(s1, d) == Idle;
    var s2 := Next(s1, ReadUser(d, t));
    assert PcOf(s2, d).HasUser? && Live(s2.cache, (), t);
    OneEvent(s2, Resolve(d, t));
    EventsCons(s1, ReadUser(d, t), [Resolve(d, t)]);
    EventsCons(s, Store(c, now), [ReadUser(d, t), Resolve(d, t)]);
    assert [ReadUser(d, t)] + [Resolve(d, t)] == [ReadUser(d, t), Resolve(d, t)];
    assert [Store(c, now)] + [ReadUser(d, t), Resolve(d, t)] == [Store(c, now), ReadUser(d, t), Resolve(d, t)];
  }

  /** Neither a SET nor an invalidation. */
  predicate LeavesCache(es: seq<Event>) { forall i | 0 <= i < |es| :: !es[i].Store? && !es[i].Invalidate? }

  lemma {:induction false} CacheKept(s: State, es: seq<Event>)
    requires Trace(s, es) && LeavesCache(es)
    ensures Exec(s, es).cache == s.cache
    decreases |es|
  {
    if es != [] {
      assert forall i | 0 <= i < |es| - 1 :: es[1..][i] == es[i + 1];
      assert !es[0].Store? && !es[0].Invalidate?;
      CacheKept(Next(s, es[0]), es[1..]);
    }
  }

  /** Changes of the database alone do not disturb the entry: whatever happens but a SET or an
      invalidation, a stored answer is what every request gets for 300 s, and then none. */
  lemma {:induction false} ServedUntilInvalidated(s: State, c: Client, now: int, es: seq<Event>, d: Client, t: int)
    requires Legal(s, Store(c, now)) && Trace(Next(s, Store(c, now)), es) && LeavesCache(es)
    requires Legal(Exec(Next(s, Store(c, now)), es), Resolve(d, t))
    ensures var s' := Exec(Next(s, Store(c, now)), es);
            Next(s', Resolve(d, t)).served
            == if t <= now + 300_000 then s'.served + [Served(t, PcOf(s, c).answer)] else s'.served
  {
    CacheKept(Next(s, Store(c, now)), es);
  }

  predicate NoChange(es: seq<Event>) {
    forall i | 0 <= i < |es| :: !es[i].Change?
  }

  lemma {:induction false} VersionsKept(s: State, es: seq<Event>)
    requires Trace(s, es) && NoChange(es)
    ensures Exec(s, es).versions == s.versions
    decreases |es|
  {
    if es != [] {
      assert forall i | 0 <= i < |es| - 1 :: es[1..][i] == es[i + 1];
      assert !es[0].Change?;
      VersionsKept(Next(s, es[0]), es[1..]);
    }
  }

  /** So when none does, every answer until the next change, the first one included, is exactly
      what the user holds in the database, or empty because loading the role failed. */
  lemma {:induction false} FreshAfterInvalidate(s: State, now: int, es: seq<Event>, i: nat)
    requires StateOk(s) && Legal(s, Invalidate(now)) && Trace(Next(s, Invalidate(now)), es) && NoChange(es)
    requires forall c :: !HoldsOutdated(s, c, now)
    requires |s.served| <= i < |Exec(Next(s, Invalidate(now)), es).served|
    ensures var answer, data := Exec(Next(s, Invalidate(now)), es).served[i].answer, s.versions[Last(s)].data;
            answer.permissions == if answer.failed then {} else Held(data.user, data.roles)
  {
    var s0 := Next(s, Invalidate(now));
    NoneOutdated(s, now);
    ServesNoneOlder(s0, es, Last(s));
    NextOk(s, Invalidate(now));
    ExecOk(s0, es);
    VersionsKept(s0, es);
    assert ServedOk(Exec(s0, es), Exec(s0, es).served[i]);
  }
}
