/** The batch endpoint over all clients: every client has a device of its own, and its device's rows are
    what it posted. */
module Devices {
  import opened Observations
  import opened EventStore
  import opened Intake
  import opened Names

  /** The registered clients in order, device ids counting from 1, and the event table they share. */
  datatype Site = Site(clients: seq<string>, rows: seq<Event>)

  datatype Post = Post(clientId: string, events: seq<RequestEvent>)

  function Registered(clients: seq<string>, client: string): seq<string> {
    if client in clients then clients else clients + [client]
  }

  function DeviceId(clients: seq<string>, client: string): (id: int)
    requires client in clients
    ensures 1 <= id <= |clients| && clients[id - 1] == client
  {
    if clients[0] == client then 1 else 1 + DeviceId(clients[1..], client)
  }

  ghost function Handled(s: Site, p: Post): Site {
    if !Acceptable(p.clientId, p.events) then s
    else
      var client := Trim(p.clientId);
      var clients := Registered(s.clients, client);
      Site(clients, InsertAll(s.rows, DeviceId(clients, client), NormalisedAll(p.events)))
  }

  ghost function After(posts: seq<Post>): Site {
    if |posts| == 0 then Site([], []) else Handled(After(posts[..|posts| - 1]), posts[|posts| - 1])
  }

  datatype Answer = Answer(accepted: nat, ignored: nat, device: int)

  class EventsEndpoint {
    var clients: seq<string>
    const store: Store

    ghost predicate Valid() reads this, store { store.Valid() }

    ghost function State(): Site reads this, store { Site(clients, store.rows) }

    constructor ()
      ensures Valid() && State() == Site([], []) && fresh(store)
    {
      clients := [];
      store := new Store();
    }

    /** The device of a client, registered on first contact. */
    method EnsureDevice(client: string) returns (device: int)
      modifies this
      ensures clients == Registered(old(clients), client) && device == DeviceId(clients, client)
    {
      if client !in clients {
        clients := clients + [client];
      }
      var i := 0;
      while clients[i] != client
        invariant 0 <= i < |clients| && client in clients[i..]
        invariant i + DeviceId(clients[i..], client) == DeviceId(clients, client)
        decreases |clients| - i
      {
        assert clients[i..][1..] == clients[i + 1..];
        i := i + 1;
      }
      device := i + 1;
    }

    /** Nothing happens to a batch that is refused, not even the registration of its client. */
    method EventsBatch(p: Post) returns (r: Result<Answer, BatchError>)
      requires Valid()
      modifies this, store
      ensures Valid() && State() == Handled(old(State()), p)
      ensures r.Success? <==> Acceptable(p.clientId, p.events)
      ensures r.Success? ==> r.value.accepted + r.value.ignored == |p.events|
                             && r.value.device == DeviceId(clients, Trim(p.clientId))
    {
      hide Acceptable;
      var inputs := ValidateBatch(p.clientId, p.events);
      if inputs.Failure? {
        return Failure(inputs.error);
      }
      var device := EnsureDevice(Trim(p.clientId));
      var accepted, ignored := store.InsertEvents(device, inputs.value);
      return Success(Answer(accepted, ignored, device));
    }
  }

  // ---- the register -----------------------------------------------------------

  ghost predicate Distinct(clients: seq<string>) {
    forall i, j :: 0 <= i < j < |clients| ==> clients[i] != clients[j]
  }

  /** A client keeps its device, and no two clients share one. */
  lemma DeviceKept(clients: seq<string>, client: string, other: string)
    requires Distinct(clients) && client in clients
    ensures Distinct(Registered(clients, other))
    ensures DeviceId(Registered(clients, other), client) == DeviceId(clients, client)
    ensures other in clients && other != client ==> DeviceId(clients, other) != DeviceId(clients, client)
  {
    assert clients[DeviceId(clients, client) - 1] == Registered(clients, other)[DeviceId(clients, client) - 1];
  }

  // ---- histories --------------------------------------------------------------

  /** Some accepted post has an event with this id. */
  ghost predicate Used(posts: seq<Post>, id: string) {
    exists k :: 0 <= k < |posts| && UsedBy(posts[k], id)
  }

  ghost predicate UsedBy(p: Post, id: string) {
    Acceptable(p.clientId, p.events) && exists i :: 0 <= i < |p.events| && Trim(p.events[i].eventId) == id
  }

  ghost predicate GoodSite(posts: seq<Post>, s: Site) {
    && ValidRows(s.rows) && Distinct(s.clients)
    && (forall x :: x in s.rows ==> 1 <= x.device <= |s.clients|)
    && (forall id :: Known(s.rows, id) <==> Used(posts, id))
    && (forall k :: 0 <= k < |posts| && Acceptable(posts[k].clientId, posts[k].events)
                    ==> Trim(posts[k].clientId) in s.clients)
  }

  lemma UsedMore(posts: seq<Post>, p: Post, id: string)
    ensures Used(posts + [p], id) <==> Used(posts, id) || UsedBy(p, id)
  {
    hide UsedBy;
    var all := posts + [p];
    assert all[|posts|] == p && forall k :: 0 <= k < |posts| ==> all[k] == posts[k];
  }

  lemma {:induction false} InsertedDevices(rows: seq<Event>, device: int, inputs: seq<EventInput>, n: int)
    requires forall x :: x in rows ==> 1 <= x.device <= n
    requires 1 <= device <= n
    ensures forall x :: x in InsertAll(rows, device, inputs) ==> 1 <= x.device <= n
  {
    if |inputs| > 0 {
      InsertedDevices(rows, device, inputs[..|inputs| - 1], n);
    }
  }

  lemma HandledGood(posts: seq<Post>, s: Site, p: Post)
    requires GoodSite(posts, s)
    ensures GoodSite(posts + [p], Handled(s, p))
  {
    hide Acceptable, Used, Trim, Known, UsedBy;
    var all, s' := posts + [p], Handled(s, p);
    forall id ensures Used(all, id) <==> Used(posts, id) || UsedBy(p, id) {
      UsedMore(posts, p, id);
    }
    assert all[|posts|] == p && forall k :: 0 <= k < |posts| ==> all[k] == posts[k];
    if Acceptable(p.clientId, p.events) {
      var client := Trim(p.clientId);
      var d := DeviceId(s'.clients, client);
      AcceptedKnown(s.rows, d, p);
      InsertedDevices(s.rows, d, Inputs(p), |s'.clients|);
    } else {
      RefusedUsesNothing(p);
    }
  }

  lemma RefusedUsesNothing(p: Post)
    requires !Acceptable(p.clientId, p.events)
    ensures forall id :: !UsedBy(p, id)
  {
  }

  ghost function Inputs(p: Post): (inputs: seq<EventInput>)
    requires Acceptable(p.clientId, p.events)
    ensures |inputs| == |p.events|
    ensures forall i :: 0 <= i < |inputs| ==> WellFormed(p.events[i]) && inputs[i] == Normalised(p.events[i])
  {
    assert forall i :: 0 <= i < |p.events| ==> p.events[i] in p.events;
    NormalisedAll(p.events)
  }

  lemma AcceptedKnown(rows: seq<Event>, device: int, p: Post)
    requires ValidRows(rows) && Acceptable(p.clientId, p.events)
    ensures ValidRows(InsertAll(rows, device, Inputs(p)))
    ensures forall id :: Known(InsertAll(rows, device, Inputs(p)), id) <==> Known(rows, id) || UsedBy(p, id)
  {
    hide Trim, Known;
    InsertAllValid(rows, device, Inputs(p));
  }

  lemma {:induction false} SiteGood(posts: seq<Post>)
    ensures GoodSite(posts, After(posts))
  {
    hide GoodSite, Handled;
    if |posts| == 0 {
      EmptyGood();
    } else {
      SiteGood(posts[..|posts| - 1]);
      HandledGood(posts[..|posts| - 1], After(posts[..|posts| - 1]), posts[|posts| - 1]);
      assert posts[..|posts| - 1] + [posts[|posts| - 1]] == posts;
    }
  }

  lemma EmptyGood()
    ensures GoodSite([], Site([], []))
  {
  }

  // ---- what a client's device shows -------------------------------------------

  /** Event i of post k is e, the client's, accepted, and no accepted post before had an event with its id. */
  ghost predicate FirstPost(posts: seq<Post>, client: string, e: RequestEvent, k: nat, i: nat) {
    k < |posts| && Brings(posts[k], client, e, i) && !Used(posts[..k], Trim(e.eventId))
  }

  ghost predicate Brings(p: Post, client: string, e: RequestEvent, i: nat) {
    Acceptable(p.clientId, p.events) && Trim(p.clientId) == client && i < |p.events| && p.events[i] == e
  }

  /** The client posted the event under an id that was new. */
  ghost predicate PostedFirst(posts: seq<Post>, client: string, e: RequestEvent) {
    exists k: nat, i: nat :: FirstPost(posts, client, e, k, i)
  }

  ghost predicate ShowsPost(row: Event, device: int, client: string, posts: seq<Post>) {
    exists e :: PostedFirst(posts, client, e) && ShowsEvent(row, device, e)
  }

  ghost predicate IsShown(rows: seq<Event>, device: int, e: RequestEvent) {
    exists x :: x in rows && ShowsEvent(x, device, e)
  }

  /** The rows are what the client posted under ids that were new. */
  ghost predicate ClientRows(rows: seq<Event>, device: int, client: string, posts: seq<Post>) {
    && (forall x {:trigger ShowsPost(x, device, client, posts)} :: x in rows ==> ShowsPost(x, device, client, posts))
    && (forall e :: PostedFirst(posts, client, e) ==> IsShown(rows, device, e))
  }

  ghost predicate BringsFirst(posts: seq<Post>, p: Post, client: string, e: RequestEvent) {
    (exists i: nat :: Brings(p, client, e, i)) && !Used(posts, Trim(e.eventId))
  }

  lemma PostedMore(posts: seq<Post>, p: Post, client: string, e: RequestEvent)
    ensures PostedFirst(posts + [p], client, e) <==> PostedFirst(posts, client, e) || BringsFirst(posts, p, client, e)
  {
    hide Brings, Used, Trim;
    var all := posts + [p];
    assert all[..|posts|] == posts && all[|posts|] == p;
    forall k: nat, i: nat | k < |posts| ensures FirstPost(all, client, e, k, i) <==> FirstPost(posts, client, e, k, i) {
      assert all[..k] == posts[..k] && all[k] == posts[k];
    }
    if PostedFirst(posts, client, e) {
      var k: nat, i: nat :| FirstPost(posts, client, e, k, i);
      assert FirstPost(all, client, e, k, i);
    }
    if BringsFirst(posts, p, client, e) {
      var i: nat :| Brings(p, client, e, i);
      assert FirstPost(all, client, e, |posts|, i);
    }
    if PostedFirst(all, client, e) {
      var k: nat, i: nat :| FirstPost(all, client, e, k, i);
      assert k < |posts| ==> FirstPost(posts, client, e, k, i);
    }
  }

  /** Another client's post, or one that is refused, adds nothing. */
  lemma NothingFor(rows: seq<Event>, device: int, client: string, posts: seq<Post>, p: Post)
    requires ClientRows(rows, device, client, posts)
    requires !Acceptable(p.clientId, p.events) || Trim(p.clientId) != client
    ensures ClientRows(rows, device, client, posts + [p])
  {
    hide Trim, ShowsEvent, Acceptable, PostedFirst;
    forall e ensures PostedFirst(posts + [p], client, e) <==> PostedFirst(posts, client, e) {
      PostedMore(posts, p, client, e);
    }
    forall x | x in rows ensures ShowsPost(x, device, client, posts + [p]) {
      assert ShowsPost(x, device, client, posts);
    }
  }

  lemma CarriedIsShown(x: Event, device: int, p: Post, i: nat)
    requires Acceptable(p.clientId, p.events) && i < |p.events| && Carries(x, device, Inputs(p)[i])
    ensures ShowsEvent(x, device, p.events[i])
  {
    RowShows(x, device, p.events[i]);
  }

  /** What the post brings first is what is inserted for it. */
  lemma BroughtFirst(rows: seq<Event>, posts: seq<Post>, p: Post, i: nat)
    requires Acceptable(p.clientId, p.events) && i < |p.events| && forall id :: Known(rows, id) <==> Used(posts, id)
    ensures FirstWithId(rows, Inputs(p), i) <==> BringsFirst(posts, p, Trim(p.clientId), p.events[i])
  {
    hide Used, Trim, Known;
    assert Brings(p, Trim(p.clientId), p.events[i], i);
    forall j | 0 <= j < i ensures Inputs(p)[j].uuid != Inputs(p)[i].uuid {
    }
  }

  /** The client's own accepted post. */
  lemma OwnPost(rows: seq<Event>, rows': seq<Event>, device: int, client: string, posts: seq<Post>, p: Post)
    requires ClientRows(DeviceRows(rows, device), device, client, posts)
    requires Acceptable(p.clientId, p.events) && Trim(p.clientId) == client
    requires (forall id :: Known(rows, id) <==> Used(posts, id)) && GrowsFor(rows, rows', device, Inputs(p))
    ensures ClientRows(DeviceRows(rows', device), device, client, posts + [p])
  {
    hide Trim, ShowsEvent, Acceptable, DeviceRows, Carries, FirstWithId, Known, Used, PostedFirst, BringsFirst;
    var mine, mine' := DeviceRows(rows, device), DeviceRows(rows', device);
    forall e ensures PostedFirst(posts + [p], client, e)
                <==> PostedFirst(posts, client, e) || BringsFirst(posts, p, client, e) {
      PostedMore(posts, p, client, e);
    }
    forall x | x in mine' ensures ShowsPost(x, device, client, posts + [p]) {
      if x in mine {
        assert ShowsPost(x, device, client, posts);
      } else {
        NewRowShows(x, rows, device, posts, p);
      }
    }
    forall e | PostedFirst(posts + [p], client, e) ensures IsShown(mine', device, e) {
      if PostedFirst(posts, client, e) {
        var x :| x in mine && ShowsEvent(x, device, e);
        assert x in mine';
      } else {
        BroughtIsShown(rows, mine', device, posts, p, e);
      }
    }
  }

  lemma NewRowShows(x: Event, rows: seq<Event>, device: int, posts: seq<Post>, p: Post)
    requires Acceptable(p.clientId, p.events) && ComesFrom(x, rows, device, Inputs(p))
    requires forall id :: Known(rows, id) <==> Used(posts, id)
    ensures ShowsPost(x, device, Trim(p.clientId), posts + [p])
  {
    hide Trim, ShowsEvent, Known, Used, PostedFirst, BringsFirst, Carries;
    var i: nat :| FirstWithId(rows, Inputs(p), i) && Carries(x, device, Inputs(p)[i]);
    CarriedIsShown(x, device, p, i);
    BroughtFirst(rows, posts, p, i);
    PostedMore(posts, p, Trim(p.clientId), p.events[i]);
  }

  lemma BroughtIsShown(rows: seq<Event>, shown: seq<Event>, device: int, posts: seq<Post>, p: Post, e: RequestEvent)
    requires Acceptable(p.clientId, p.events) && BringsFirst(posts, p, Trim(p.clientId), e)
    requires forall id :: Known(rows, id) <==> Used(posts, id)
    requires forall i: nat :: FirstWithId(rows, Inputs(p), i) ==> ShownAs(shown, device, Inputs(p)[i])
    ensures IsShown(shown, device, e)
  {
    hide Trim, ShowsEvent, Known, Used, Carries;
    var i: nat :| Brings(p, Trim(p.clientId), e, i);
    BroughtFirst(rows, posts, p, i);
    assert ShownAs(shown, device, Inputs(p)[i]);
    var x :| x in shown && Carries(x, device, Inputs(p)[i]);
    CarriedIsShown(x, device, p, i);
  }

  /** A device nobody has yet has no rows. */
  lemma {:induction false} NoRows(rows: seq<Event>, device: int)
    requires forall x :: x in rows ==> x.device != device
    ensures DeviceRows(rows, device) == []
  {
    if |rows| > 0 {
      NoRows(rows[..|rows| - 1], device);
    }
  }

  lemma NeverPosted(posts: seq<Post>, s: Site, client: string, device: int)
    requires GoodSite(posts, s) && client !in s.clients
    ensures ClientRows([], device, client, posts)
  {
    hide Trim, ShowsEvent, Used, Acceptable;
  }

  lemma HandledRows(posts: seq<Post>, s: Site, p: Post, client: string)
    requires GoodSite(posts, s) && client in Handled(s, p).clients
    requires client in s.clients ==> ClientRows(DeviceRows(s.rows, DeviceId(s.clients, client)),
                                                DeviceId(s.clients, client), client, posts)
    ensures var s' := Handled(s, p);
            ClientRows(DeviceRows(s'.rows, DeviceId(s'.clients, client)), DeviceId(s'.clients, client), client, posts
                       + [p])
  {
    hide Trim, Acceptable, Used, Known, ClientRows, GrowsFor, DeviceRows;
    var s' := Handled(s, p);
    var d := DeviceId(s'.clients, client);
    if !Acceptable(p.clientId, p.events) {
      NothingFor(DeviceRows(s.rows, d), d, client, posts, p);
    } else {
      var poster := Trim(p.clientId);
      var e := DeviceId(s'.clients, poster);
      InsertedForDevice(s.rows, e, Inputs(p));
      if client in s.clients {
        DeviceKept(s.clients, client, poster);
      } else {
        assert client == poster && d == |s'.clients|;
        NoRows(s.rows, d);
        NeverPosted(posts, s, client, d);
      }
      if client == poster {
        OwnPost(s.rows, s'.rows, d, client, posts, p);
      } else {
        DeviceKept(s'.clients, client, poster);
        OtherRows(s.rows, s'.rows, e, d, Inputs(p));
        NothingFor(DeviceRows(s.rows, d), d, client, posts, p);
      }
    }
  }

  lemma OtherRows(rows: seq<Event>, rows': seq<Event>, device: int, other: int, inputs: seq<EventInput>)
    requires GrowsFor(rows, rows', device, inputs) && other != device
    ensures DeviceRows(rows', other) == DeviceRows(rows, other)
  {
  }

  /** After any posts of any clients a client's device shows, with all they say, exactly those of its own
      accepted events whose id no accepted post had before, its own or another client's. */
  lemma {:induction false} ClientSees(posts: seq<Post>, client: string)
    requires client in After(posts).clients
    ensures var d := DeviceId(After(posts).clients, client);
            ClientRows(DeviceRows(After(posts).rows, d), d, client, posts)
  {
    hide GoodSite, Handled, ClientRows, DeviceRows;
    var front, p := posts[..|posts| - 1], posts[|posts| - 1];
    SiteGood(front);
    if client in After(front).clients {
      ClientSees(front, client);
    }
    HandledRows(front, After(front), p, client);
    assert front + [p] == posts;
  }

  /** No two members of the collector share a device. */
  lemma MembersApart(posts: seq<Post>, a: string, b: string)
    requires a != b && MemberName(a) in After(posts).clients && MemberName(b) in After(posts).clients
    ensures DeviceId(After(posts).clients, MemberName(a)) != DeviceId(After(posts).clients, MemberName(b))
  {
    SiteGood(posts);
    if MemberName(a) == MemberName(b) {
      MemberNameInjective(a, b);
    }
    DeviceKept(After(posts).clients, MemberName(a), MemberName(b));
  }
}
