/** The event hub (backend/internal/realtime/hub.go): a bounded set of subscribers, each
    with a bounded channel; one that cannot take an event at once is evicted. */
module Realtime {
  import opened Wrappers

  datatype Refresh = Refresh(
    kind: string, chainID: int, deploymentID: string, token: string,
    asOfBlock: int, asOfBlockHash: string, commonAncestor: int)

  /** A Go channel: what is buffered can be received even after it is closed. */
  datatype Channel = Channel(buffered: seq<Refresh>, closed: bool)

  datatype Reception = Received(event: Refresh) | Pending | Ended

  /** How a subscription stands, and at which point of the history it ended. */
  datatype Fate = Live | Evicted(at: nat) | Left(at: nat)

  /** What a subscriber has taken so far, and where in the history it joined. */
  datatype Account = Account(received: seq<Refresh>, joined: nat, fate: Fate)

  function End(a: Account, history: seq<Refresh>): nat {
    if a.fate.Live? then |history| else a.fate.at
  }

  /** The channel has carried exactly what was published while its subscription lasted: to
      a live subscriber everything since it joined, to an evicted one everything up to the
      event that did not fit. */
  predicate Accounted(c: Channel, a: Account, history: seq<Refresh>, capacity: nat) {
    && |c.buffered| <= capacity
    && (c.closed <==> !a.fate.Live?)
    && a.joined <= End(a, history) <= |history|
    && (a.fate.Evicted? ==> a.fate.at < |history|)
    && a.received + c.buffered == history[a.joined..End(a, history)]
  }

  predicate AllAccounted(
    channels: map<int, Channel>, accounts: map<int, Account>, history: seq<Refresh>, capacity: nat)
  {
    channels.Keys == accounts.Keys
    && forall id :: id in channels ==> Accounted(channels[id], accounts[id], history, capacity)
  }

  /** The three groups of ids are those of the accounts. */
  ghost predicate Grouped(accounts: map<int, Account>, live: set<int>, evicted: set<int>, left: set<int>) {
    && (forall id :: id in live <==> id in accounts && accounts[id].fate.Live?)
    && (forall id :: id in evicted <==> id in accounts && accounts[id].fate.Evicted?)
    && (forall id :: id in left <==> id in accounts && accounts[id].fate.Left?)
  }

  /** What one publication does to the channel of a subscriber. */
  function Offered(c: Channel, capacity: nat, event: Refresh): Channel {
    if |c.buffered| < capacity then c.(buffered := c.buffered + [event]) else c.(closed := true)
  }

  function AfterOffer(c: Channel, a: Account, capacity: nat, at: nat): Account {
    if |c.buffered| < capacity then a else a.(fate := Evicted(at))
  }

  /** The subscribers that a publication evicts. */
  function Full(ids: set<int>, channels: map<int, Channel>, capacity: nat): set<int> {
    set id | id in ids && id in channels && |channels[id].buffered| >= capacity
  }

  function OfferedAll(channels: map<int, Channel>, ids: set<int>, capacity: nat, event: Refresh): map<int, Channel> {
    map id | id in channels :: if id in ids then Offered(channels[id], capacity, event) else channels[id]
  }

  function AfterOffers(channels: map<int, Channel>, accounts: map<int, Account>, ids: set<int>, capacity: nat, at: nat)
    : map<int, Account>
    requires channels.Keys == accounts.Keys
  {
    map id | id in accounts :: if id in ids then AfterOffer(channels[id], accounts[id], capacity, at) else accounts[id]
  }

  /** A publication keeps every account straight: live subscribers that have room get the
      event, full ones end just before it, and ended ones are not touched. */
  lemma PublicationAccounted(
    channels: map<int, Channel>, accounts: map<int, Account>, live: set<int>, evicted: set<int>, left: set<int>,
    history: seq<Refresh>, capacity: nat, event: Refresh) returns (after: map<int, Account>)
    requires AllAccounted(channels, accounts, history, capacity) && Grouped(accounts, live, evicted, left)
    ensures OfferedAll(channels, live, capacity, event).Keys == channels.Keys && after.Keys == accounts.Keys
    ensures after == AfterOffers(channels, accounts, live, capacity, |history|)
    ensures forall id :: id in accounts ==>
              after[id].received == accounts[id].received && after[id].joined == accounts[id].joined
    ensures AllAccounted(OfferedAll(channels, live, capacity, event), after, history + [event], capacity)
    ensures Grouped(after, live - Full(live, channels, capacity), evicted + Full(live, channels, capacity), left)
  {
    after := AfterOffers(channels, accounts, live, capacity, |history|);
    var offered := OfferedAll(channels, live, capacity, event);
    forall id | id in offered ensures id in after && Accounted(offered[id], after[id], history + [event], capacity) {
      assert id in accounts.Keys && Accounted(channels[id], accounts[id], history, capacity);
      AccountGrows(channels[id], accounts[id], history, capacity, event);
    }
    forall id ensures id in accounts <==> id in channels {
      assert id in accounts.Keys <==> id in channels.Keys;
    }
  }

  /** What a publication must do, subscriber by subscriber: one with room has the event
      appended, one without is evicted at this point of the history, with its buffer left to
      read; everything else stays, and no buffer loses anything. */
  ghost predicate Published(
    event: Refresh, at: nat, capacity: nat,
    channels: map<int, Channel>, accounts: map<int, Account>, live: set<int>, evicted: set<int>,
    nextChannels: map<int, Channel>, nextAccounts: map<int, Account>, nextLive: set<int>, nextEvicted: set<int>)
  {
    && nextChannels.Keys == channels.Keys && nextAccounts.Keys == accounts.Keys && nextLive <= live
    && (forall id :: id in live ==>
          && id in channels && id in nextChannels && id in nextAccounts
          && if |channels[id].buffered| < capacity
             then id in nextLive && id !in nextEvicted && nextAccounts[id].fate == Live
                  && nextChannels[id] == Channel(channels[id].buffered + [event], false)
             else id !in nextLive && id in nextEvicted && nextAccounts[id].fate == Evicted(at)
                  && nextChannels[id] == Channel(channels[id].buffered, true))
    && (forall id :: id in channels && id !in live ==>
          && id in nextChannels && nextChannels[id] == channels[id] && (id in nextEvicted <==> id in evicted)
          && id in accounts && id in nextAccounts && nextAccounts[id] == accounts[id])
    && (forall id :: id in channels ==> id in nextChannels && channels[id].buffered <= nextChannels[id].buffered)
  }

  lemma IsPublished(
    channels: map<int, Channel>, accounts: map<int, Account>, live: set<int>, evicted: set<int>, left: set<int>,
    history: seq<Refresh>, capacity: nat, event: Refresh, after: map<int, Account>)
    requires AllAccounted(channels, accounts, history, capacity) && Grouped(accounts, live, evicted, left)
    requires after == AfterOffers(channels, accounts, live, capacity, |history|)
    ensures Published(event, |history|, capacity, channels, accounts, live, evicted,
                      OfferedAll(channels, live, capacity, event), after,
                      live - Full(live, channels, capacity), evicted + Full(live, channels, capacity))
  {
    forall id ensures id in accounts <==> id in channels {
      assert id in accounts.Keys <==> id in channels.Keys;
    }
    forall id | id in live ensures id in channels && id !in evicted && !channels[id].closed {
      OpenIsLive(channels, accounts, live, evicted, left, history, capacity, id);
    }
  }

  lemma OpenIsLive(
    channels: map<int, Channel>, accounts: map<int, Account>, live: set<int>, evicted: set<int>, left: set<int>,
    history: seq<Refresh>, capacity: nat, id: int)
    requires AllAccounted(channels, accounts, history, capacity) && Grouped(accounts, live, evicted, left)
    ensures id in live <==> id in channels && !channels[id].closed
    ensures id in live ==> id in accounts && accounts[id].fate.Live? && id !in evicted && id !in left
    ensures channels.Keys == accounts.Keys
  {
    assert id in accounts.Keys <==> id in channels.Keys;
    assert id in channels ==> Accounted(channels[id], accounts[id], history, capacity);
  }

  lemma NothingOffered(channels: map<int, Channel>, capacity: nat, event: Refresh)
    ensures OfferedAll(channels, {}, capacity, event) == channels && Full({}, channels, capacity) == {}
  {
  }

  lemma JoinAccounted(
    channels: map<int, Channel>, accounts: map<int, Account>, live: set<int>, evicted: set<int>, left: set<int>,
    history: seq<Refresh>, capacity: nat, id: int)
    requires AllAccounted(channels, accounts, history, capacity) && Grouped(accounts, live, evicted, left)
    requires id !in channels
    ensures id !in accounts && id !in live
    ensures
      var after := accounts[id := Account([], |history|, Live)];
      && AllAccounted(channels[id := Channel([], false)], after, history, capacity)
      && Grouped(after, live + {id}, evicted, left)
  {
    assert id !in accounts.Keys;
  }

  lemma TakeAccounted(
    channels: map<int, Channel>, accounts: map<int, Account>, live: set<int>, evicted: set<int>, left: set<int>,
    history: seq<Refresh>, capacity: nat, id: int)
    requires AllAccounted(channels, accounts, history, capacity) && Grouped(accounts, live, evicted, left)
    requires id in channels && channels[id].buffered != []
    ensures id in accounts
    ensures
      var c, a := channels[id], accounts[id];
      var after := accounts[id := a.(received := a.received + [c.buffered[0]])];
      && AllAccounted(channels[id := c.(buffered := c.buffered[1..])], after, history, capacity)
      && Grouped(after, live, evicted, left)
  {
    assert id in accounts.Keys;
    var c, a := channels[id], accounts[id];
    assert Accounted(c, a, history, capacity);
    assert (a.received + [c.buffered[0]]) + c.buffered[1..] == a.received + c.buffered;
  }

  lemma LeaveAccounted(
    channels: map<int, Channel>, accounts: map<int, Account>, live: set<int>, evicted: set<int>, left: set<int>,
    history: seq<Refresh>, capacity: nat, id: int)
    requires AllAccounted(channels, accounts, history, capacity) && Grouped(accounts, live, evicted, left)
    requires id in live
    ensures id in channels && id in accounts && !channels[id].closed && id !in left && id !in evicted
    ensures
      var after := accounts[id := accounts[id].(fate := Left(|history|))];
      && AllAccounted(channels[id := channels[id].(closed := true)], after, history, capacity)
      && Grouped(after, live - {id}, evicted, left + {id})
  {
    assert id in channels.Keys;
    assert Accounted(channels[id], accounts[id], history, capacity);
  }

  lemma AccountGrows(c: Channel, a: Account, history: seq<Refresh>, capacity: nat, event: Refresh)
    requires Accounted(c, a, history, capacity)
    ensures if a.fate.Live?
            then Accounted(Offered(c, capacity, event), AfterOffer(c, a, capacity, |history|), history + [event], capacity)
            else Accounted(c, a, history + [event], capacity)
  {
    var longer := history + [event];
    if a.fate.Live? && |c.buffered| < capacity {
      assert longer[a.joined..|longer|] == history[a.joined..|history|] + [event];
    } else {
      assert longer[a.joined..End(a, history)] == history[a.joined..End(a, history)];
    }
  }

  lemma FullAdds(start: set<int>, gone: set<int>, done: set<int>, id: int, channels: map<int, Channel>, capacity: nat)
    requires id in channels && id in start - done && id !in gone
    ensures id in start - Full(done, channels, capacity) && id !in gone + Full(done, channels, capacity)
    ensures
      var evicted := if |channels[id].buffered| >= capacity then {id} else {};
      && start - Full(done + {id}, channels, capacity) == start - Full(done, channels, capacity) - evicted
      && gone + Full(done + {id}, channels, capacity) == gone + Full(done, channels, capacity) + evicted
  {
  }

  lemma OfferedAdds(done: set<int>, id: int, channels: map<int, Channel>, capacity: nat, event: Refresh)
    requires id in channels && id !in done
    ensures OfferedAll(channels, done, capacity, event)[id := Offered(channels[id], capacity, event)]
         == OfferedAll(channels, done + {id}, capacity, event)
    ensures id in OfferedAll(channels, done, capacity, event)
    ensures OfferedAll(channels, done, capacity, event)[id] == channels[id]
  {
  }

  /** The next key of a map iteration, which may be any. */
  method AnyOf(ids: set<int>) returns (id: int)
    requires ids != {}
    ensures id in ids
  {
    assert (forall i :: i !in ids) ==> ids == {};
    id :| id in ids;
  }

  class Hub {
    var subscribers: set<int>
    var channels: map<int, Channel>
    var nextID: int
    const maximum: nat
    const capacity: nat
    var evictions: nat
    var active: int

    /** Everything published, and the account of every id. */
    ghost var history: seq<Refresh>
    ghost var accounts: map<int, Account>
    ghost var evicted: set<int>
    ghost var left: set<int>

    ghost predicate Counted()
      reads this
    {
      && (forall id :: id in channels <==> 1 <= id <= nextID)
      && active == |subscribers| <= maximum
      && evictions == |evicted|
      && nextID == active + evictions + |left|
    }

    ghost predicate Valid()
      reads this
    {
      && maximum > 0 && capacity > 0
      && AllAccounted(channels, accounts, history, capacity)
      && Grouped(accounts, subscribers, evicted, left)
      && Counted()
    }

    constructor (maximum: int, buffer: int)
      ensures Valid() && subscribers == {} && nextID == 0 && history == []
      ensures this.maximum == if maximum <= 0 then 1000 else maximum
      ensures this.capacity == if buffer <= 0 then 16 else buffer
    {
      this.maximum := if maximum <= 0 then 1000 else maximum;
      this.capacity := if buffer <= 0 then 16 else buffer;
      subscribers, channels, nextID, evictions, active := {}, map[], 0, 0, 0;
      history, accounts, evicted, left := [], map[], {}, {};
    }

    /** A new subscriber, unless the hub is full; its account starts now. */
    method Subscribe() returns (id: Option<int>)
      requires Valid()
      modifies this
      ensures Valid()
      ensures id.None? <==> |old(subscribers)| >= maximum
      ensures history == old(history) && evictions == old(evictions) && evicted == old(evicted) && left == old(left)
      ensures id.None? ==> subscribers == old(subscribers) && channels == old(channels) && accounts == old(accounts)
                           && nextID == old(nextID)
      ensures id.Some? ==> && id.value == nextID == old(nextID) + 1 && id.value !in old(channels)
                           && subscribers == old(subscribers) + {id.value}
                           && channels == old(channels)[id.value := Channel([], false)]
                           && accounts == old(accounts)[id.value := Account([], |history|, Live)]
    {
      hide AllAccounted, Grouped;
      if |subscribers| >= maximum {
        return None;
      }
      nextID := nextID + 1;
      JoinAccounted(channels, accounts, subscribers, evicted, left, history, capacity, nextID);
      channels := channels[nextID := Channel([], false)];
      subscribers := subscribers + {nextID};
      active := active + 1;
      accounts := accounts[nextID := Account([], |history|, Live)];
      return Some(nextID);
    }

    /** Closing a closed channel panics. */
    method CloseChannel(id: int)
      requires id in channels && !channels[id].closed
      modifies this`channels
      ensures channels == old(channels)[id := old(channels)[id].(closed := true)]
    {
      channels := channels[id := channels[id].(closed := true)];
    }

    /** Sends the event to one subscriber, or evicts it when its channel is full. */
    method Offer(id: int, event: Refresh)
      requires id in subscribers && id in channels && !channels[id].closed && id !in evicted
      requires active == |subscribers| && evictions == |evicted|
      modifies this`subscribers, this`channels, this`active, this`evictions, this`evicted
      ensures channels == old(channels)[id := Offered(old(channels)[id], capacity, event)]
      ensures var gone := if |old(channels)[id].buffered| >= capacity then {id} else {};
              subscribers == old(subscribers) - gone && evicted == old(evicted) + gone
      ensures active == |subscribers| && evictions == |evicted| && active + evictions == old(active) + old(evictions)
    {
      if |channels[id].buffered| < capacity {
        channels := channels[id := channels[id].(buffered := channels[id].buffered + [event])];
      } else {
        subscribers := subscribers - {id};
        CloseChannel(id);
        active := active - 1;
        evictions := evictions + 1;
        evicted := evicted + {id};
      }
    }

    /** The loop of Publish over the subscribers, in whatever order the map yields them. */
    method OfferAll(event: Refresh)
      requires forall id :: id in subscribers ==> id in channels && !channels[id].closed && id !in evicted
      requires active == |subscribers| && evictions == |evicted|
      modifies this`subscribers, this`channels, this`active, this`evictions, this`evicted
      ensures channels == OfferedAll(old(channels), old(subscribers), capacity, event)
      ensures subscribers == old(subscribers) - Full(old(subscribers), old(channels), capacity)
      ensures evicted == old(evicted) + Full(old(subscribers), old(channels), capacity)
      ensures active == |subscribers| && evictions == |evicted| && active + evictions == old(active) + old(evictions)
    {
      hide OfferedAll, Offered, Full;
      var rest := subscribers;
      ghost var start, before := subscribers, channels;
      assert start - rest == {};
      NothingOffered(before, capacity, event);
      while rest != {}
        invariant rest <= start
        invariant subscribers == start - Full(start - rest, before, capacity)
        invariant evicted == old(evicted) + Full(start - rest, before, capacity)
        invariant channels == OfferedAll(before, start - rest, capacity, event)
        invariant active == |subscribers| && evictions == |evicted|
        invariant active + evictions == old(active) + old(evictions)
        decreases rest
      {
        var id := AnyOf(rest);
        ghost var done := start - rest;
        rest := rest - {id};
        assert start - rest == done + {id};
        FullAdds(start, old(evicted), done, id, before, capacity);
        OfferedAdds(done, id, before, capacity, event);
        Offer(id, event);
      }
      assert start - rest == start;
    }

    /** Offers the event to every subscriber: one with room has it appended, one without is
        evicted with what was buffered left to read, and all others are as before. The
        channels it closes are open, so none is closed twice. */
    method Publish(event: Refresh)
      requires Valid()
      modifies this
      ensures Valid()
      ensures Published(event, |old(history)|, capacity,
                        old(channels), old(accounts), old(subscribers), old(evicted),
                        channels, accounts, subscribers, evicted)
      ensures history == old(history) + [event] && nextID == old(nextID) && left == old(left)
      ensures subscribers == old(subscribers) - Full(old(subscribers), old(channels), capacity)
      ensures evicted == old(evicted) + Full(old(subscribers), old(channels), capacity)
      ensures channels == OfferedAll(old(channels), old(subscribers), capacity, event)
      ensures accounts.Keys == old(accounts).Keys
      ensures forall id :: id in accounts ==> accounts[id].received == old(accounts)[id].received
                                              && accounts[id].joined == old(accounts)[id].joined
    {
      hide AllAccounted, Grouped, OfferedAll, AfterOffers, Full, Published, Offered, AfterOffer, Accounted;
      ghost var settled := PublicationAccounted(channels, accounts, subscribers, evicted, left, history, capacity, event);
      IsPublished(channels, accounts, subscribers, evicted, left, history, capacity, event, settled);
      forall id | id in subscribers ensures id in channels && !channels[id].closed && id !in evicted {
        OpenIsLive(channels, accounts, subscribers, evicted, left, history, capacity, id);
      }
      OfferAll(event);
      accounts := settled;
      history := history + [event];
    }

    /** What a subscriber does: takes the oldest buffered event, also from a closed
        channel, until that is empty. */
    method Receive(id: int) returns (r: Reception)
      requires Valid() && id in channels
      modifies this`channels, this`accounts
      ensures Valid()
      ensures r.Received? <==> old(channels)[id].buffered != []
      ensures r.Ended? <==> old(channels)[id].buffered == [] && id !in subscribers
      ensures !r.Received? ==> accounts == old(accounts) && channels == old(channels)
      ensures r.Received? ==>
                && id in channels && old(channels)[id].buffered == [r.event] + channels[id].buffered
                && channels == old(channels)[id := channels[id]]
                && id in old(accounts)
                && accounts == old(accounts)[id := old(accounts)[id].(received := old(accounts)[id].received + [r.event])]
    {
      hide AllAccounted, Grouped;
      var channel := channels[id];
      OpenIsLive(channels, accounts, subscribers, evicted, left, history, capacity, id);
      if channel.buffered == [] {
        return if channel.closed then Ended else Pending;
      }
      r := Received(channel.buffered[0]);
      TakeAccounted(channels, accounts, subscribers, evicted, left, history, capacity, id);
      channels := channels[id := channel.(buffered := channel.buffered[1..])];
      accounts := accounts[id := accounts[id].(received := accounts[id].received + [r.event])];
    }

    /** Ends a subscription; one that has ended already is left alone. */
    method Remove(id: int)
      requires Valid()
      modifies this
      ensures Valid()
      ensures nextID == old(nextID) && history == old(history) && evicted == old(evicted)
      ensures id !in old(subscribers) ==> subscribers == old(subscribers) && left == old(left)
                                          && channels == old(channels) && accounts == old(accounts)
      ensures id in old(subscribers) ==>
                && subscribers == old(subscribers) - {id} && left == old(left) + {id}
                && id in old(channels) && channels == old(channels)[id := old(channels)[id].(closed := true)]
                && id in old(accounts) && accounts == old(accounts)[id := old(accounts)[id].(fate := Left(|history|))]
    {
      hide AllAccounted, Grouped;
      if id !in subscribers {
        return;
      }
      LeaveAccounted(channels, accounts, subscribers, evicted, left, history, capacity, id);
      subscribers := subscribers - {id};
      CloseChannel(id);
      active := active - 1;
      left := left + {id};
      accounts := accounts[id := accounts[id].(fate := Left(|history|))];
    }

    // ---- what a subscriber can rely on -----------------------------------------------------

    /** A live subscriber has received, or has waiting, exactly what was published since it
        joined. */
    lemma LiveHasEverything(id: int)
      requires Valid() && id in subscribers
      ensures id in channels && id in accounts && accounts[id].joined <= |history|
      ensures accounts[id].received + channels[id].buffered == history[accounts[id].joined..]
      ensures !channels[id].closed && |channels[id].buffered| <= capacity
    {
      assert id in accounts.Keys;
      assert Accounted(channels[id], accounts[id], history, capacity);
    }

    /** Once its channel is drained, an evicted subscriber has received what was published
        since it joined up to, and without, some first event; nothing is skipped. */
    lemma EvictedHasPrefix(id: int)
      requires Valid() && id in evicted && id in channels && channels[id].buffered == []
      ensures id in accounts && accounts[id].fate.Evicted?
      ensures accounts[id].joined <= accounts[id].fate.at < |history|
      ensures accounts[id].received == history[accounts[id].joined..accounts[id].fate.at]
    {
      assert Accounted(channels[id], accounts[id], history, capacity);
    }

    /** Every id was issued once and is live, evicted or closed, and the counters say so. */
    lemma IdsAddUp(id: int)
      requires Valid()
      ensures nextID == |subscribers| + |evicted| + |left| && evictions == |evicted| && |subscribers| <= maximum
      ensures 1 <= id <= nextID <==> id in subscribers || id in evicted || id in left
    {
      assert id in channels.Keys <==> id in accounts.Keys;
    }
  }

  /** What Subscribe hands out: closing it twice is closing it once. */
  class Subscription {
    const hub: Hub
    const id: int
    var done: bool

    constructor (hub: Hub, id: int)
      ensures this.hub == hub && this.id == id && !done
    {
      this.hub := hub;
      this.id := id;
      done := false;
    }

    method Close()
      requires hub.Valid()
      modifies this, hub
      ensures hub.Valid() && done
      ensures old(done) ==> hub.subscribers == old(hub.subscribers) && hub.channels == old(hub.channels)
      ensures !old(done) ==> hub.subscribers == old(hub.subscribers) - {id}
      ensures hub.history == old(hub.history) && hub.evicted == old(hub.evicted)
    {
      if !done {
        done := true;
        hub.Remove(id);
      }
    }
  }
}
