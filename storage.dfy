/** The server's in-memory store (server/storage.ts): class MemStorage over five
    JavaScript Maps and three auto-increment counters. Record shapes follow
    shared/schema.ts. */
module Storage {
  import opened Js
  import opened JsMap

  /** Milliseconds since the epoch, as held by a JavaScript Date. */
  type Instant = int

  datatype NewUser = NewUser(username: string, password: string)
  datatype User = User(id: int, username: string, password: string)

  datatype Campaign = Campaign(
    id: string,
    name: string,
    campaignType: string,
    status: string,
    programId: Option<string>,
    triggerEvent: Option<string>,
    createdAt: string,
    updatedAt: string)

  datatype NewBurnRule = NewBurnRule(
    campaignId: string,
    expiryDays: Option<int>,
    expiryPeriod: Option<string>,
    minimumOrderValue: Option<real>)

  datatype BurnRule = BurnRule(
    id: int,
    campaignId: string,
    expiryDays: Option<int>,
    expiryPeriod: Option<string>,
    minimumOrderValue: Option<real>)

  datatype NewCustomer = NewCustomer(
    campaignId: string,
    partnerUserId: Option<string>,
    contact: Option<string>,
    amount: Option<real>,
    loadId: Option<string>,
    errorReason: Option<string>)

  datatype Customer = Customer(
    id: int,
    campaignId: string,
    partnerUserId: Option<string>,
    contact: Option<string>,
    amount: Option<real>,
    loadId: Option<string>,
    errorReason: Option<string>,
    processed: bool)

  datatype Program = Program(
    id: string,
    name: string,
    purpose: string,
    inputType: string,
    expiryDays: int,
    minimumOrderValue: Option<real>,
    fileFormatId: Option<string>,
    status: string,
    createdAt: Instant,
    updatedAt: Instant)

  /** A `Partial<Program>`: `None` is a key the update does not carry. For the
      nullable fields, `Some(None)` carries the key with no value. */
  datatype ProgramPatch = ProgramPatch(
    id: Option<string>,
    name: Option<string>,
    purpose: Option<string>,
    inputType: Option<string>,
    expiryDays: Option<int>,
    minimumOrderValue: Option<Option<real>>,
    fileFormatId: Option<Option<string>>,
    status: Option<string>,
    createdAt: Option<Instant>)

  /** `{ ...existing, ...updates, updatedAt: now }` */
  function ApplyPatch(p: Program, u: ProgramPatch, now: Instant): (r: Program)
    ensures r.updatedAt == now
  {
    Program(
      u.id.GetOr(p.id),
      u.name.GetOr(p.name),
      u.purpose.GetOr(p.purpose),
      u.inputType.GetOr(p.inputType),
      u.expiryDays.GetOr(p.expiryDays),
      u.minimumOrderValue.GetOr(p.minimumOrderValue),
      u.fileFormatId.GetOr(p.fileFormatId),
      u.status.GetOr(p.status),
      u.createdAt.GetOr(p.createdAt),
      now)
  }

  /** A field the update does not carry keeps its value, a field it carries takes
      the new value, and `updatedAt` is the time of the update. */
  lemma PatchOverwritesOnlyGivenFields(p: Program, u: ProgramPatch, now: Instant)
    ensures var r := ApplyPatch(p, u, now);
      && r.id == u.id.GetOr(p.id)
      && r.name == u.name.GetOr(p.name)
      && r.purpose == u.purpose.GetOr(p.purpose)
      && r.inputType == u.inputType.GetOr(p.inputType)
      && r.expiryDays == u.expiryDays.GetOr(p.expiryDays)
      && r.minimumOrderValue == u.minimumOrderValue.GetOr(p.minimumOrderValue)
      && r.fileFormatId == u.fileFormatId.GetOr(p.fileFormatId)
      && r.status == u.status.GetOr(p.status)
      && r.createdAt == u.createdAt.GetOr(p.createdAt)
      && r.updatedAt == now
    ensures u == ProgramPatch(None, None, None, None, None, None, None, None, None) ==>
      ApplyPatch(p, u, now) == p.(updatedAt := now)
  {
  }

  /** Applying the same update twice is the same as applying it once. */
  lemma PatchIdempotent(p: Program, u: ProgramPatch, now: Instant)
    ensures ApplyPatch(ApplyPatch(p, u, now), u, now) == ApplyPatch(p, u, now)
  {
  }

  /** `ks` is 1, 2, ..., next - 1. */
  predicate CountsFromOne(ks: seq<int>, next: int) {
    |ks| == next - 1 && forall i :: 0 <= i < |ks| ==> ks[i] == i + 1
  }

  /** The next id is above every id handed out, and handing it out keeps
      the count going. */
  lemma CountsFromOneNext(ks: seq<int>, next: int)
    requires CountsFromOne(ks, next)
    ensures forall k :: k in ks ==> k < next
    ensures CountsFromOne(ks + [next], next + 1)
  {
    var ks' := ks + [next];
    forall i | 0 <= i < |ks'|
      ensures ks'[i] == i + 1
    {
      if i < |ks| {
        assert ks'[i] == ks[i];
      }
    }
  }

  predicate IdsIncreasing(cs: seq<Customer>) {
    forall i, j :: 0 <= i < j < |cs| ==> cs[i].id < cs[j].id
  }

  /** `Array.prototype.filter` by campaign id. */
  function FilterByCampaign(cs: seq<Customer>, campaignId: string): (r: seq<Customer>)
    ensures forall c :: c in r <==> c in cs && c.campaignId == campaignId
  {
    if cs == [] then []
    else
      var rest := FilterByCampaign(cs[1..], campaignId);
      assert forall c :: c in cs <==> c == cs[0] || c in cs[1..];
      if cs[0].campaignId == campaignId then [cs[0]] + rest else rest
  }

  /** The filter keeps the listing's order, so increasing ids stay increasing. */
  lemma {:induction false} FilterKeepsIdsIncreasing(cs: seq<Customer>, campaignId: string)
    requires IdsIncreasing(cs)
    ensures IdsIncreasing(FilterByCampaign(cs, campaignId))
  {
    if cs != [] {
      var tail := cs[1..];
      assert IdsIncreasing(tail) by {
        forall i, j | 0 <= i < j < |tail|
          ensures tail[i].id < tail[j].id
        {
          assert tail[i] == cs[i + 1] && tail[j] == cs[j + 1];
        }
      }
      FilterKeepsIdsIncreasing(tail, campaignId);
      if cs[0].campaignId == campaignId {
        assert forall k :: 0 <= k < |tail| ==> cs[0].id < tail[k].id by {
          forall k | 0 <= k < |tail|
            ensures cs[0].id < tail[k].id
          {
            assert tail[k] == cs[k + 1];
          }
        }
        FilterIdsAbove(tail, campaignId, cs[0].id);
        PrependKeepsIdsIncreasing(cs[0], FilterByCampaign(tail, campaignId));
      }
    }
  }

  lemma FilterIdsAbove(cs: seq<Customer>, campaignId: string, bound: int)
    requires forall k :: 0 <= k < |cs| ==> bound < cs[k].id
    ensures forall c :: c in FilterByCampaign(cs, campaignId) ==> bound < c.id
  {
  }

  lemma PrependKeepsIdsIncreasing(c: Customer, cs: seq<Customer>)
    requires IdsIncreasing(cs)
    requires forall d :: d in cs ==> c.id < d.id
    ensures IdsIncreasing([c] + cs)
  {
    var r := [c] + cs;
    forall i, j | 0 <= i < j < |r|
      ensures r[i].id < r[j].id
    {
      assert r[j] == cs[j - 1];
      assert r[j] in cs;
      if i > 0 {
        assert r[i] == cs[i - 1];
      }
    }
  }

  /** `Array.prototype.find` by user name: the first user, in insertion order,
      with that name. */
  function FindByUsername(us: seq<User>, username: string): (r: Option<User>)
    ensures r.None? <==> forall u :: u in us ==> u.username != username
    ensures r.Some? ==> exists i :: 0 <= i < |us| && us[i] == r.value && r.value.username == username
                          && forall j :: 0 <= j < i ==> us[j].username != username
  {
    if us == [] then None
    else if us[0].username == username then Some(us[0])
    else
      var r := FindByUsername(us[1..], username);
      assert forall u :: u in us ==> u == us[0] || u in us[1..];
      if r.Some? then
        var i :| 0 <= i < |us[1..]| && us[1..][i] == r.value && r.value.username == username
                 && forall j :: 0 <= j < i ==> us[1..][j].username != username;
        assert us[i + 1] == r.value;
        r
      else r
  }

  /** In a user table whose ids count up from 1 in insertion order, finding by
      name in the values gives a stored user with that name, with no user of
      that name under a smaller id, and nothing only when no user has it. */
  lemma FindInUsers(users: OrderedMap<int, User>, next: int, username: string)
    requires users.Valid() && CountsFromOne(users.keys, next)
    requires forall id :: id in users.entries ==> users.entries[id].id == id
    ensures var r := FindByUsername(users.Values(), username);
      && (r.None? <==> forall id :: id in users.entries ==> users.entries[id].username != username)
      && (r.Some? ==> r.value.username == username && 1 <= r.value.id < next
                      && r.value.id in users.entries && users.entries[r.value.id] == r.value)
      && (r.Some? ==> forall id :: id in users.entries && id < r.value.id ==> users.entries[id].username != username)
  {
    var vs := users.Values();
    var r := FindByUsername(vs, username);
    UserSlots(users, next);
    if r.None? {
      forall id | id in users.entries ensures users.entries[id].username != username {
        assert vs[id - 1] in vs;
      }
    } else {
      var i :| 0 <= i < |vs| && vs[i] == r.value && r.value.username == username
               && forall j :: 0 <= j < i ==> vs[j].username != username;
      assert users.keys[i] == i + 1 && users.keys[i] in users.entries;
    }
  }

  /** With ids counting up from 1, the user with id `id` is value `id - 1`. */
  lemma UserSlots(users: OrderedMap<int, User>, next: int)
    requires users.Valid() && CountsFromOne(users.keys, next)
    ensures forall id :: id in users.entries ==> 1 <= id < next && users.Values()[id - 1] == users.entries[id]
  {
    forall id | id in users.entries
      ensures 1 <= id < next && users.Values()[id - 1] == users.entries[id]
    {
      var j :| 0 <= j < |users.keys| && users.keys[j] == id;
    }
  }

  class MemStorage {
    var users: OrderedMap<int, User>
    var campaigns: OrderedMap<string, Campaign>
    var burnRules: OrderedMap<string, BurnRule>
    var customers: OrderedMap<int, Customer>
    var programs: OrderedMap<string, Program>
    var currentUserId: int
    var currentBurnRuleId: int
    var currentCustomerId: int

    /** The store's invariant: user and customer ids are exactly 1, 2, ... in
        insertion order and each record carries its own key; customers are never
        processed; campaigns are keyed by their id and burn rules by their
        campaign id, with burn-rule ids below the counter. */
    ghost predicate Valid()
      reads this
    {
      && users.Valid() && campaigns.Valid() && burnRules.Valid() && customers.Valid() && programs.Valid()
      && CountsFromOne(users.keys, currentUserId)
      && (forall id :: id in users.entries ==> users.entries[id].id == id)
      && CountsFromOne(customers.keys, currentCustomerId)
      && (forall id :: id in customers.entries ==>
            customers.entries[id].id == id && !customers.entries[id].processed)
      && (forall id :: id in campaigns.entries ==> campaigns.entries[id].id == id)
      && 1 <= currentBurnRuleId
      && (forall cid :: cid in burnRules.entries ==>
            burnRules.entries[cid].campaignId == cid && 1 <= burnRules.entries[cid].id < currentBurnRuleId)
    }

    constructor()
      ensures Valid()
      ensures users.keys == [] && campaigns.keys == [] && burnRules.keys == []
      ensures customers.keys == [] && programs.keys == []
      ensures currentUserId == 1 && currentBurnRuleId == 1 && currentCustomerId == 1
    {
      users := Empty();
      campaigns := Empty();
      burnRules := Empty();
      customers := Empty();
      programs := Empty();
      currentUserId := 1;
      currentBurnRuleId := 1;
      currentCustomerId := 1;
    }

    // ----- users -----

    /** getUser: a user is found exactly for the ids handed out so far. */
    function GetUser(id: int): (r: Option<User>)
      reads this
      requires Valid()
      ensures r.Some? <==> 1 <= id < currentUserId
      ensures r.Some? ==> r.value.id == id
    {
      assert 1 <= id < currentUserId ==> users.keys[id - 1] == id;
      users.Get(id)
    }

    /** getUserByUsername: the first user created with that name. */
    function GetUserByUsername(username: string): (r: Option<User>)
      reads this
      requires Valid()
      ensures r.None? <==> forall id :: id in users.entries ==> users.entries[id].username != username
      ensures r.Some? ==> r.value.username == username && GetUser(r.value.id) == r
      ensures r.Some? ==> forall id :: id in users.entries && id < r.value.id ==> users.entries[id].username != username
    {
      FindInUsers(users, currentUserId, username);
      FindByUsername(users.Values(), username)
    }

    /** createUser: the new user gets the next id, 1 for the first user, which
        is larger than every id handed out before. */
    method CreateUser(u: NewUser) returns (user: User)
      requires Valid()
      modifies this
      ensures Valid()
      ensures user == User(old(currentUserId), u.username, u.password)
      ensures user.id == |old(users.keys)| + 1
      ensures forall id :: id in old(users.entries) ==> id < user.id
      ensures users == old(users).Set(user.id, user)
      ensures currentUserId == old(currentUserId) + 1
      ensures campaigns == old(campaigns) && burnRules == old(burnRules) && customers == old(customers)
      ensures programs == old(programs)
      ensures currentBurnRuleId == old(currentBurnRuleId) && currentCustomerId == old(currentCustomerId)
    {
      var id := currentUserId;
      currentUserId := currentUserId + 1;
      user := User(id, u.username, u.password);
      CountsFromOneNext(users.keys, id);
      users := users.Set(id, user);
    }

    // ----- campaigns -----

    /** createCampaign: stored under its own id; an existing id is overwritten
        in place. */
    method CreateCampaign(c: Campaign) returns (r: Campaign)
      requires Valid()
      modifies this
      ensures Valid()
      ensures r == c
      ensures campaigns == old(campaigns).Set(c.id, c)
      ensures users == old(users) && burnRules == old(burnRules) && customers == old(customers)
      ensures programs == old(programs)
      ensures currentUserId == old(currentUserId) && currentBurnRuleId == old(currentBurnRuleId)
      ensures currentCustomerId == old(currentCustomerId)
    {
      campaigns := campaigns.Set(c.id, c);
      r := c;
    }

    /** getCampaign: whatever is found is the campaign with that id. */
    function GetCampaign(id: string): (r: Option<Campaign>)
      reads this
      requires Valid()
      ensures r.Some? <==> campaigns.Has(id)
      ensures r.Some? ==> r.value.id == id
    {
      campaigns.Get(id)
    }

    /** getAllCampaigns: every stored campaign once, in first-creation order. */
    function GetAllCampaigns(): (r: seq<Campaign>)
      reads this
      requires Valid()
      ensures |r| == |campaigns.keys|
      ensures forall i :: 0 <= i < |r| ==> r[i].id == campaigns.keys[i] && GetCampaign(r[i].id) == Some(r[i])
    {
      campaigns.Values()
    }

    // ----- burn rules -----

    /** createBurnRules: keyed by campaign id, so a second rule for the same
        campaign replaces the first; the id counter advances either way. */
    method CreateBurnRules(b: NewBurnRule) returns (r: BurnRule)
      requires Valid()
      modifies this
      ensures Valid()
      ensures r == BurnRule(old(currentBurnRuleId), b.campaignId, b.expiryDays, b.expiryPeriod, b.minimumOrderValue)
      ensures burnRules == old(burnRules).Set(b.campaignId, r)
      ensures currentBurnRuleId == old(currentBurnRuleId) + 1
      ensures users == old(users) && campaigns == old(campaigns) && customers == old(customers)
      ensures programs == old(programs)
      ensures currentUserId == old(currentUserId) && currentCustomerId == old(currentCustomerId)
    {
      var id := currentBurnRuleId;
      currentBurnRuleId := currentBurnRuleId + 1;
      r := BurnRule(id, b.campaignId, b.expiryDays, b.expiryPeriod, b.minimumOrderValue);
      burnRules := burnRules.Set(b.campaignId, r);
    }

    /** getBurnRulesByCampaign: the rule found belongs to that campaign. */
    function GetBurnRulesByCampaign(campaignId: string): (r: Option<BurnRule>)
      reads this
      requires Valid()
      ensures r.Some? <==> burnRules.Has(campaignId)
      ensures r.Some? ==> r.value.campaignId == campaignId && 1 <= r.value.id < currentBurnRuleId
    {
      burnRules.Get(campaignId)
    }

    // ----- customers -----

    /** createCustomer: a fresh id, larger than every earlier customer id,
        `processed` false, the other fields copied. */
    method CreateCustomer(c: NewCustomer) returns (r: Customer)
      requires Valid()
      modifies this
      ensures Valid()
      ensures r == Customer(old(currentCustomerId), c.campaignId, c.partnerUserId, c.contact,
                            c.amount, c.loadId, c.errorReason, false)
      ensures forall id :: id in old(customers.entries) ==> id < r.id
      ensures customers == old(customers).Set(r.id, r)
      ensures customers.Values() == old(customers.Values()) + [r]
      ensures currentCustomerId == old(currentCustomerId) + 1
      ensures users == old(users) && campaigns == old(campaigns) && burnRules == old(burnRules)
      ensures programs == old(programs)
      ensures currentUserId == old(currentUserId) && currentBurnRuleId == old(currentBurnRuleId)
    {
      var id := currentCustomerId;
      currentCustomerId := currentCustomerId + 1;
      r := Customer(id, c.campaignId, c.partnerUserId, c.contact, c.amount, c.loadId, c.errorReason, false);
      CountsFromOneNext(customers.keys, id);
      ValuesAfterSet(customers, id, r);
      customers := customers.Set(id, r);
    }

    /** getCustomersByCampaign: exactly the stored customers of that campaign,
        in creation order (increasing ids), none of them processed. */
    function GetCustomersByCampaign(campaignId: string): (r: seq<Customer>)
      reads this
      requires Valid()
      ensures forall c :: c in r <==>
        c.id in customers.entries && customers.entries[c.id] == c && c.campaignId == campaignId
      ensures IdsIncreasing(r)
      ensures forall c :: c in r ==> !c.processed
    {
      var vs := customers.Values();
      assert forall i :: 0 <= i < |vs| ==> vs[i].id == i + 1;
      assert forall c :: c in vs <==> c.id in customers.entries && customers.entries[c.id] == c by {
        forall c: Customer | c.id in customers.entries && customers.entries[c.id] == c ensures c in vs {
          assert vs[c.id - 1] == c;
        }
      }
      FilterKeepsIdsIncreasing(vs, campaignId);
      FilterByCampaign(vs, campaignId)
    }

    // ----- programs -----

    /** createProgram: stored under its own id; an existing id is overwritten
        in place. */
    method CreateProgram(p: Program) returns (r: Program)
      requires Valid()
      modifies this
      ensures Valid()
      ensures r == p
      ensures programs == old(programs).Set(p.id, p)
      ensures users == old(users) && campaigns == old(campaigns) && burnRules == old(burnRules)
      ensures customers == old(customers)
      ensures currentUserId == old(currentUserId) && currentBurnRuleId == old(currentBurnRuleId)
      ensures currentCustomerId == old(currentCustomerId)
    {
      programs := programs.Set(p.id, p);
      r := p;
    }

    /** getProgram */
    function GetProgram(id: string): (r: Option<Program>)
      reads this
      ensures r.Some? <==> programs.Has(id)
      ensures r.Some? ==> r.value == programs.entries[id]
    {
      programs.Get(id)
    }

    /** getAllPrograms: every stored program once, in first-creation order. */
    function GetAllPrograms(): (r: seq<Program>)
      reads this
      requires Valid()
      ensures |r| == |programs.keys|
      ensures forall i :: 0 <= i < |r| ==> GetProgram(programs.keys[i]) == Some(r[i])
    {
      programs.Values()
    }

    /** updateProgram: an unknown id answers undefined and changes nothing; a
        known one is replaced, under the same key and in the same place, by the
        merge of the update into it. */
    method UpdateProgram(id: string, u: ProgramPatch, now: Instant) returns (r: Option<Program>)
      requires Valid()
      modifies this
      ensures Valid()
      ensures old(programs.Has(id)) <==> r.Some?
      ensures r.None? ==> programs == old(programs)
      ensures r.Some? ==> r.value == ApplyPatch(old(programs.entries[id]), u, now)
      ensures r.Some? ==> programs == OrderedMap(old(programs.keys), old(programs.entries)[id := r.value])
      ensures users == old(users) && campaigns == old(campaigns) && burnRules == old(burnRules)
      ensures customers == old(customers)
      ensures currentUserId == old(currentUserId) && currentBurnRuleId == old(currentBurnRuleId)
      ensures currentCustomerId == old(currentCustomerId)
    {
      var existing := programs.Get(id);
      if existing.None? {
        return None;
      }
      var updated := ApplyPatch(existing.value, u, now);
      programs := programs.Set(id, updated);
      r := Some(updated);
    }

    /** deleteProgram: true iff the id was present; afterwards it is gone and
        every other program is unchanged. */
    method DeleteProgram(id: string) returns (deleted: bool)
      requires Valid()
      modifies this
      ensures Valid()
      ensures deleted <==> old(programs.Has(id))
      ensures programs == old(programs).Delete(id)
      ensures GetProgram(id) == None
      ensures forall other: string :: other != id ==> GetProgram(other) == old(GetProgram(other))
      ensures users == old(users) && campaigns == old(campaigns) && burnRules == old(burnRules)
      ensures customers == old(customers)
      ensures currentUserId == old(currentUserId) && currentBurnRuleId == old(currentBurnRuleId)
      ensures currentCustomerId == old(currentCustomerId)
    {
      deleted := programs.Has(id);
      programs := programs.Delete(id);
    }
  }

  /** A client of the store: user ids come out as 1, 2, 3 in creation order. */
  method UserIdsCountUp(a: NewUser, b: NewUser, c: NewUser) returns (ids: seq<int>)
    ensures ids == [1, 2, 3]
  {
    var s := new MemStorage();
    var u1 := s.CreateUser(a);
    var u2 := s.CreateUser(b);
    var u3 := s.CreateUser(c);
    ids := [u1.id, u2.id, u3.id];
  }

  /** A client of the store: a second burn rule for a campaign replaces the
      first and is the one found, with the next id. */
  method SecondBurnRuleWins(first: NewBurnRule, second: NewBurnRule) returns (found: Option<BurnRule>)
    requires first.campaignId == second.campaignId
    ensures found.Some? && found.value.id == 2
    ensures found.value == BurnRule(2, second.campaignId, second.expiryDays, second.expiryPeriod,
                                    second.minimumOrderValue)
  {
    var s := new MemStorage();
    var r1 := s.CreateBurnRules(first);
    var r2 := s.CreateBurnRules(second);
    found := s.GetBurnRulesByCampaign(second.campaignId);
  }
}
