/** The server's opportunity and user collections and the route handlers that
    read and change them (serv/serv.js), as an in-memory store. Ids are handed
    out by the store; the current time `now` is a parameter of every handler
    that needs it. */
module Server {
  import opened Wrappers
  import opened Seqs

  /** A stored opportunity. Mongoose stores an absent skills list as []. */
  datatype Opportunity = Opportunity(
    id: nat,
    title: Option<string>,
    kind: Option<string>,
    skillsRequired: seq<string>,
    description: Option<string>,
    postedBy: Option<string>,
    deadline: Option<int>,
    createdAt: int)

  /** The fields of a create request, as the client sends them. */
  datatype Draft = Draft(
    title: Option<string>,
    kind: Option<string>,
    skillsRequired: seq<string>,
    description: Option<string>,
    postedBy: Option<string>,
    deadline: Option<int>)

  /** A stored user; email and password are required (non-empty). */
  datatype User = User(
    id: nat,
    name: Option<string>,
    email: string,
    password: string,
    skills: Option<string>)

  /** The answers of the register route. */
  datatype RegisterOutcome =
    | Registered        // "Registered"
    | EmailExists       // 400 "Email exists"
    | ValidationFailed  // the save is rejected by the schema's required fields

  /** `deadline < now`; a record without a deadline never expires. */
  predicate Expired(o: Opportunity, now: int)
  {
    o.deadline.Some? && o.deadline.value < now
  }

  /** What is left after purging the records expired at `now`. */
  function Live(s: seq<Opportunity>, now: int): (live: seq<Opportunity>)
  {
    Filter(s, (o: Opportunity) => !Expired(o, now))
  }

  /** The records whose owner is exactly `email`. */
  function PostedBy(s: seq<Opportunity>, email: string): (owned: seq<Opportunity>)
  {
    Filter(s, (o: Opportunity) => o.postedBy == Some(email))
  }

  /** The records whose id is not `id`. */
  function WithoutId(s: seq<Opportunity>, id: nat): (rest: seq<Opportunity>)
  {
    Filter(s, (o: Opportunity) => o.id != id)
  }

  function IdOf(o: Opportunity): (id: nat)
  {
    o.id
  }

  function EmailOf(u: User): (email: string)
  {
    u.email
  }

  predicate IdsUnique(s: seq<Opportunity>)
  {
    UniqueBy(s, IdOf)
  }

  predicate EmailTaken(users: seq<User>, email: string)
  {
    exists u | u in users :: u.email == email
  }

  predicate EmailsUnique(users: seq<User>)
  {
    UniqueBy(users, EmailOf)
  }

  /** The purge keeps exactly the records not expired at `now`. */
  lemma LiveExactly(s: seq<Opportunity>, now: int, o: Opportunity)
    ensures o in Live(s, now) <==> o in s && !Expired(o, now)
  {
    FilterMembership(s, (o: Opportunity) => !Expired(o, now), o);
  }

  /** Purging again at the same or a later time removes exactly what one
      purge at the later time removes; so a second purge at the same time
      finds nothing to remove. */
  lemma PurgeLater(s: seq<Opportunity>, now: int, later: int)
    requires now <= later
    ensures Live(Live(s, now), later) == Live(s, later)
    ensures Live(Live(s, now), now) == Live(s, now)
  {
    FilterAbsorb(s, (o: Opportunity) => !Expired(o, now), (o: Opportunity) => !Expired(o, later));
    FilterAbsorb(s, (o: Opportunity) => !Expired(o, now), (o: Opportunity) => !Expired(o, now));
  }

  /** The owner query returns exactly the records posted by `email`,
      compared exactly; records without an owner never match. */
  lemma PostedByExactly(s: seq<Opportunity>, email: string, o: Opportunity)
    ensures o in PostedBy(s, email) <==> o in s && o.postedBy == Some(email)
  {
    FilterMembership(s, (o: Opportunity) => o.postedBy == Some(email), o);
  }

  /** Deleting by id changes nothing when no record has that id, and removes
      exactly that one record, keeping the others in order, when one has. */
  lemma WithoutIdRemovesOnly(s: seq<Opportunity>, id: nat)
    requires IdsUnique(s)
    ensures (forall i | 0 <= i < |s| :: s[i].id != id) ==> WithoutId(s, id) == s
    ensures forall k | 0 <= k < |s| && s[k].id == id :: WithoutId(s, id) == s[..k] + s[k + 1..]
  {
    var p := (o: Opportunity) => o.id != id;
    if forall i | 0 <= i < |s| :: s[i].id != id {
      FilterAll(s, p);
    }
    forall k | 0 <= k < |s| && s[k].id == id
      ensures WithoutId(s, id) == s[..k] + s[k + 1..]
    {
      FilterDropsOne(s, p, k);
    }
  }

  /** Adding a user whose email is not taken keeps emails unique. */
  lemma AddUserKeepsEmailsUnique(users: seq<User>, u: User)
    requires EmailsUnique(users) && !EmailTaken(users, u.email)
    ensures EmailsUnique(users + [u])
  {
  }

  /** The first user whose email and password both equal the given ones, as
      `findOne({ email, password })` returns it. */
  function FindUser(users: seq<User>, email: string, password: string): (r: Option<User>)
    ensures r.Some? <==> exists u | u in users :: u.email == email && u.password == password
    ensures r.Some? ==> r.value in users && r.value.email == email && r.value.password == password
  {
    if users == [] then None
    else if users[0].email == email && users[0].password == password then Some(users[0])
    else
      var rest := FindUser(users[1..], email, password);
      assert forall u | u in users && u != users[0] :: u in users[1..];
      rest
  }

  /** With unique emails the user found is the only one with that email. */
  lemma FindUserIsTheUser(users: seq<User>, email: string, password: string, u: User)
    requires EmailsUnique(users)
    requires u in users && u.email == email
    ensures FindUser(users, email, password) == if u.password == password then Some(u) else None
  {
  }

  /** The two collections behind the routes. */
  class Store {
    var opportunities: seq<Opportunity>
    var users: seq<User>
    /** The next id to hand out; every id in use is below it. */
    var nextId: nat

    ghost predicate Valid()
      reads this
    {
      && IdsUnique(opportunities)
      && (forall o | o in opportunities :: o.id < nextId)
      && (forall u | u in users :: u.id < nextId && u.email != "" && u.password != "")
      && EmailsUnique(users)
    }

    constructor ()
      ensures Valid()
      ensures opportunities == [] && users == []
    {
      opportunities, users, nextId := [], [], 0;
    }

    /** The purge both list routes start with: delete every record whose
        deadline is before `now`. */
    method Purge(now: int)
      requires Valid()
      modifies this
      ensures Valid()
      ensures opportunities == Live(old(opportunities), now)
      ensures forall o | o in opportunities :: !Expired(o, now)
      ensures forall o | o in old(opportunities) :: o in opportunities <==> !Expired(o, now)
      ensures users == old(users) && nextId == old(nextId)
    {
      var before := opportunities;
      opportunities := Live(opportunities, now);
      forall o | o in before
        ensures o in opportunities <==> !Expired(o, now)
      {
        LiveExactly(before, now, o);
      }
      FilterUniqueBy(before, (o: Opportunity) => !Expired(o, now), IdOf);
    }

    /** GET /api/opportunities: purge, then every remaining record. Any
        `skill` query is ignored. */
    method ListAll(now: int) returns (r: seq<Opportunity>)
      requires Valid()
      modifies this
      ensures Valid()
      ensures opportunities == Live(old(opportunities), now)
      ensures r == opportunities
      ensures forall o | o in r :: !Expired(o, now)
      ensures forall o | o in old(opportunities) :: o in r <==> !Expired(o, now)
      ensures users == old(users) && nextId == old(nextId)
    {
      Purge(now);
      r := opportunities;
    }

    /** GET /api/my-posts/:email: purge, then the remaining records posted by
        exactly `email`. */
    method ListByOwner(email: string, now: int) returns (r: seq<Opportunity>)
      requires Valid()
      modifies this
      ensures Valid()
      ensures opportunities == Live(old(opportunities), now)
      ensures r == PostedBy(opportunities, email)
      ensures forall o :: o in r <==> o in old(opportunities) && !Expired(o, now) && o.postedBy == Some(email)
      ensures users == old(users) && nextId == old(nextId)
    {
      Purge(now);
      r := PostedBy(opportunities, email);
      forall o
        ensures o in r <==> o in old(opportunities) && !Expired(o, now) && o.postedBy == Some(email)
      {
        PostedByExactly(opportunities, email, o);
        LiveExactly(old(opportunities), now, o);
      }
    }

    /** POST /api/opportunities: store a new record with a fresh id, the given
        fields and `createdAt = now`, and return it. */
    method Create(draft: Draft, now: int) returns (o: Opportunity)
      requires Valid()
      modifies this
      ensures Valid()
      ensures o == Opportunity(old(nextId), draft.title, draft.kind, draft.skillsRequired,
                               draft.description, draft.postedBy, draft.deadline, now)
      ensures forall p | p in old(opportunities) :: p.id != o.id
      ensures opportunities == old(opportunities) + [o]
      ensures users == old(users) && nextId == old(nextId) + 1
    {
      o := Opportunity(nextId, draft.title, draft.kind, draft.skillsRequired,
                       draft.description, draft.postedBy, draft.deadline, now);
      opportunities := opportunities + [o];
      nextId := nextId + 1;
    }

    /** DELETE /api/opportunities/:id: remove the record with that id if there
        is one; the route reports success either way. */
    method Delete(id: nat)
      requires Valid()
      modifies this
      ensures Valid()
      ensures opportunities == WithoutId(old(opportunities), id)
      ensures (forall p | p in old(opportunities) :: p.id != id) ==> opportunities == old(opportunities)
      ensures forall k | 0 <= k < |old(opportunities)| && old(opportunities)[k].id == id ::
                opportunities == old(opportunities)[..k] + old(opportunities)[k + 1..]
      ensures users == old(users) && nextId == old(nextId)
    {
      WithoutIdRemovesOnly(opportunities, id);
      FilterUniqueBy(opportunities, (o: Opportunity) => o.id != id, IdOf);
      opportunities := WithoutId(opportunities, id);
    }

    /** POST /api/register: refuse a taken email; otherwise save a new user,
        which the schema rejects when email or password is empty. */
    method Register(name: Option<string>, email: string, password: string, skills: Option<string>)
      returns (r: RegisterOutcome)
      requires Valid()
      modifies this
      ensures Valid()
      ensures r == EmailExists <==> EmailTaken(old(users), email)
      ensures r == ValidationFailed <==> !EmailTaken(old(users), email) && (email == "" || password == "")
      ensures r == Registered ==>
                && users == old(users) + [User(old(nextId), name, email, password, skills)]
                && nextId == old(nextId) + 1
      ensures r != Registered ==> users == old(users) && nextId == old(nextId)
      ensures opportunities == old(opportunities)
    {
      if EmailTaken(users, email) {
        return EmailExists;
      }
      if email == "" || password == "" {
        return ValidationFailed;
      }
      var u := User(nextId, name, email, password, skills);
      AddUserKeepsEmailsUnique(users, u);
      users := users + [u];
      nextId := nextId + 1;
      r := Registered;
    }

    /** POST /api/login: the user whose email and password both match, if
        any. Changes nothing. */
    method Login(email: string, password: string) returns (r: Option<User>)
      ensures r.Some? <==> exists u | u in users :: u.email == email && u.password == password
      ensures r.Some? ==> r.value in users && r.value.email == email && r.value.password == password
      ensures EmailsUnique(users) ==>
                forall u | u in users && u.email == email ::
                  r == if u.password == password then Some(u) else None
    {
      r := FindUser(users, email, password);
      if EmailsUnique(users) {
        forall u | u in users && u.email == email
          ensures r == if u.password == password then Some(u) else None
        {
          FindUserIsTheUser(users, email, password, u);
        }
      }
    }

    /** GET /api/users: every user. Changes nothing. */
    method ListUsers() returns (r: seq<User>)
      ensures r == users
    {
      r := users;
    }
  }
}
