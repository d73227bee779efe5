// The notification service used by one caller at a time: validation, the order of
// invalidation and write, the memo, and the fan-out filter.
module Notify {
  import opened Options
  import opened NotifyCache
  import opened Text

  datatype Input = Input(name: string, kind: string, url: string, events: Option<seq<string>>, enabled: bool)

  datatype Error = InvalidInput | InvalidURL | NotFound | Database

  datatype Result<T> = Ok(value: T) | Err(error: Error)

  const EVENTS := {"failed", "timeout", "captcha_blocked", "succeeded"}

  const DEFAULT_EVENTS := ["failed", "timeout", "captcha_blocked"]

  function EnabledOf(table: Channels): Channels {
    if table == [] then []
    else EnabledOf(table[..|table| - 1]) + (if table[|table| - 1].enabled then [table[|table| - 1]] else [])
  }

  function Subscribed(channels: Channels, event: string): Channels {
    if channels == [] then []
    else
      var last := channels[|channels| - 1];
      Subscribed(channels[..|channels| - 1], event) + (if event in last.events then [last] else [])
  }

  function Told(table: Channels, event: string): Channels {
    Subscribed(EnabledOf(table), event)
  }

  lemma ToldNext(table: Channels, event: string)
    requires table != []
    ensures var init, last := table[..|table| - 1], table[|table| - 1];
            Told(table, event) == if Wants(last, event) then Told(init, event) + [last] else Told(init, event)
  {
    var init, last := table[..|table| - 1], table[|table| - 1];
    if last.enabled {
      assert (EnabledOf(init) + [last])[..|EnabledOf(init)|] == EnabledOf(init);
    } else {
      assert EnabledOf(table) == EnabledOf(init);
    }
  }

  lemma InSnoc(init: Channels, last: Channel, c: Channel)
    ensures c in init + [last] <==> c in init || c == last
  {
  }

  predicate Wants(c: Channel, event: string) {
    c.enabled && event in c.events
  }

  /** A channel is told of an event exactly when it is enabled and subscribed. */
  lemma {:induction false} ToldIff(table: Channels, event: string, c: Channel)
    ensures c in Told(table, event) <==> c in table && c.enabled && event in c.events
  {
    assert Wants(c, event) <==> c.enabled && event in c.events;
    hide Told, Wants;
    if table == [] {
      ToldNone(event);
    } else {
      var init, last := table[..|table| - 1], table[|table| - 1];
      ToldIff(init, event, c);
      ToldNext(table, event);
      InSnoc(Told(init, event), last, c);
      InSnoc(init, last, c);
      assert table == init + [last];
    }
  }

  lemma ToldNone(event: string)
    ensures Told([], event) == []
  {
  }

  predicate Distinct(table: Channels) {
    forall i, j :: 0 <= i < j < |table| ==> table[i].id < table[j].id
  }

  /** Nobody is told twice: the fan-out keeps the table's order of ids. */
  lemma {:induction false} ToldOnce(table: Channels, event: string)
    requires Distinct(table)
    ensures Distinct(Told(table, event))
  {
    if table != [] {
      var init, last := table[..|table| - 1], table[|table| - 1];
      ToldOnce(init, event);
      ToldNext(table, event);
      hide Told;
      var told := Told(init, event);
      forall k | 0 <= k < |told|
        ensures told[k].id < last.id
      {
        ToldIff(init, event, told[k]);
      }
    }
  }

  /** Some name is none of the four events. */
  predicate NamesOther(events: seq<string>) {
    exists e :: e in events && e != "failed" && e != "timeout" && e != "captcha_blocked" && e != "succeeded"
  }

  predicate KnownEvents(events: seq<string>) {
    forall e :: e in events ==> e in EVENTS
  }

  function Without(table: Channels, id: nat): Channels {
    if table == [] then []
    else Without(table[..|table| - 1], id) + (if table[|table| - 1].id == id then [] else [table[|table| - 1]])
  }

  /** Removal keeps everyone else, in order. */
  lemma {:induction false} WithoutIff(table: Channels, id: nat)
    requires Distinct(table)
    ensures Distinct(Without(table, id))
    ensures forall c :: c in Without(table, id) <==> c in table && c.id != id
  {
    if table != [] {
      var init, last := table[..|table| - 1], table[|table| - 1];
      WithoutIff(init, id);
      assert table == init + [last];
      forall k | 0 <= k < |Without(init, id)|
        ensures Without(init, id)[k].id < last.id
      {
        assert Without(init, id)[k] in init;
      }
    }
  }

  class Service {
    var table: Channels
    var nextId: nat
    var cached: Channels
    var cacheUntil: Option<int>

    /** Without interleavings the memo is never out of date. */
    ghost predicate Valid()
      reads this
    {
      && Distinct(table) && (forall i :: 0 <= i < |table| ==> table[i].id < nextId)
      && (cacheUntil.Some? ==> cached == EnabledOf(table))
    }

    constructor ()
      ensures Valid() && table == []
    {
      table, nextId, cached, cacheUntil := [], 0, [], None;
    }

    method Invalidate()
      modifies `cached, `cacheUntil
      ensures cacheUntil.None? && cached == []
    {
      cacheUntil := None;
      cached := [];
    }

    /** The loop over the event names. */
    method CheckEvents(events: seq<string>) returns (ok: bool)
      ensures ok == KnownEvents(events)
    {
      for i := 0 to |events|
        invariant KnownEvents(events[..i])
      {
        if events[i] !in EVENTS {
          return false;
        }
        assert events[..i + 1] == events[..i] + [events[i]];
      }
      assert events[..|events|] == events;
      return true;
    }

    /** A rejected channel changes nothing; an accepted one is last in the table, unless the
        INSERT fails, which is noticed only after the memo has been dropped. */
    method Create(input: Input, urlOk: bool, stored: bool) returns (r: Result<Channel>)
      requires Valid()
      modifies this
      ensures Valid()
      ensures r.Err? ==> table == old(table) && nextId == old(nextId)
      ensures if r.Err? && r != Err(Database) then cached == old(cached) && cacheUntil == old(cacheUntil)
              else cacheUntil.None?
      ensures r == Err(Database) ==> !stored
      ensures r.Ok? ==> stored
      ensures r.Ok? ==> table == old(table) + [r.value] && r.value.id == old(nextId) && cacheUntil.None?
      ensures r.Ok? ==> r.value == Channel(r.value.id, input.name, input.kind, input.url,
                                           if input.events.Some? then input.events.value
                                           else ["failed", "timeout", "captcha_blocked"], input.enabled)
      ensures r == Err(InvalidInput) <==> Blank(input.name) || Blank(input.url) || input.kind == ""
                                          || (urlOk && input.events.Some? && NamesOther(input.events.value))
      ensures r == Err(InvalidURL) <==> !Blank(input.name) && !Blank(input.url) && input.kind != "" && !urlOk
    {
      if Trim(input.name) == "" || Trim(input.url) == "" {
        return Err(InvalidInput);
      }
      if input.kind == "" {
        return Err(InvalidInput);
      }
      if !urlOk {
        return Err(InvalidURL);
      }
      var events := if input.events.None? then DEFAULT_EVENTS else input.events.value;
      var known := CheckEvents(events);
      if !known {
        return Err(InvalidInput);
      }
      Invalidate();
      if !stored {
        return Err(Database);
      }
      var c := Channel(nextId, input.name, input.kind, input.url, events, input.enabled);
      table, nextId := table + [c], nextId + 1;
      return Ok(c);
    }

    /** An unknown id is noticed only after the memo has been dropped; an empty address
        is not checked and is stored. */
    method Update(id: nat, input: Input, urlOk: bool, stored: bool) returns (r: Result<Channel>)
      requires Valid()
      modifies this
      ensures Valid() && nextId == old(nextId)
      ensures r == Err(InvalidInput) || r == Err(InvalidURL) ==>
                table == old(table) && cached == old(cached) && cacheUntil == old(cacheUntil)
      ensures r == Err(NotFound) || r == Err(Database) ==> table == old(table) && cacheUntil.None?
      ensures r.Ok? ==> exists i :: 0 <= i < |old(table)| && old(table)[i].id == id && table == old(table)[i := r.value]
      ensures r.Ok? ==> r.value == Channel(id, input.name, input.kind, input.url,
                                           if input.events.Some? then input.events.value else [], input.enabled)
      ensures r == Err(InvalidURL) <==> !Blank(input.name) && input.url != "" && !urlOk
      ensures r == Err(InvalidInput) <==> Blank(input.name) || ((input.url == "" || urlOk) && input.events.Some?
                                                                && NamesOther(input.events.value))
      ensures r == Err(Database) <==> r != Err(InvalidURL) && r != Err(InvalidInput) && !stored
      ensures r == Err(NotFound) <==> (r != Err(InvalidURL) && r != Err(InvalidInput) && stored
                                       && forall c :: c in old(table) ==> c.id != id)
    {
      if Trim(input.name) == "" {
        return Err(InvalidInput);
      }
      if input.url != "" && !urlOk {
        return Err(InvalidURL);
      }
      var events := if input.events.None? then [] else input.events.value;
      var known := CheckEvents(events);
      if !known {
        return Err(InvalidInput);
      }
      Invalidate();
      if !stored {
        return Err(Database);
      }
      for i := 0 to |table|
        invariant forall j :: 0 <= j < i ==> table[j].id != id
        invariant table == old(table) && nextId == old(nextId) && cacheUntil.None? && Valid()
      {
        if table[i].id == id {
          var c := Channel(id, input.name, input.kind, input.url, events, input.enabled);
          table := table[i := c];
          return Ok(c);
        }
      }
      return Err(NotFound);
    }

    /** The memo is dropped even when the DELETE fails. */
    method Delete(id: nat, stored: bool) returns (ok: bool)
      requires Valid()
      modifies this
      ensures Valid() && nextId == old(nextId) && cacheUntil.None? && ok == stored
      ensures ok ==> forall c :: c in table <==> c in old(table) && c.id != id
      ensures !ok ==> table == old(table)
    {
      Invalidate();
      if !stored {
        return false;
      }
      WithoutIff(table, id);
      table := Without(table, id);
      assert forall i :: 0 <= i < |table| ==> table[i] in old(table);
      return true;
    }

    /** The memo when it is good, otherwise the repository's answer, memoised for five
        seconds from when it is stored. Either way, alone, the caller gets the enabled
        channels as they are. */
    method Enabled(now: int, fetched: Option<int>) returns (r: Option<Channels>)
      requires Valid()
      modifies `cached, `cacheUntil
      ensures Valid()
      ensures r.Some? ==> r.value == EnabledOf(table)
      ensures r.None? <==> fetched.None? && !(old(cacheUntil).Some? && now < old(cacheUntil).value)
      ensures if (old(cacheUntil).Some? && now < old(cacheUntil).value) || fetched.None?
              then cached == old(cached) && cacheUntil == old(cacheUntil)
              else cached == EnabledOf(table) && cacheUntil == Some(fetched.value + TTL)
    {
      if cacheUntil.Some? && now < cacheUntil.value {
        return Some(cached);
      }
      if fetched.None? {
        return None;
      }
      var channels: Channels := [];
      for i := 0 to |table|
        invariant channels == EnabledOf(table[..i])
      {
        assert table[..i + 1][..i] == table[..i];
        if table[i].enabled {
          channels := channels + [table[i]];
        }
      }
      assert table[..|table|] == table;
      cached := channels;
      cacheUntil := Some(fetched.value + TTL);
      return Some(channels);
    }

    /** The channels an event goes out to. */
    method Notify(event: string, now: int, fetched: Option<int>) returns (told: Channels)
      requires Valid()
      modifies `cached, `cacheUntil
      ensures Valid()
      ensures told == Told(table, event)
              || (told == [] && fetched.None? && !(old(cacheUntil).Some? && now < old(cacheUntil).value))
    {
      told := [];
      var r := Enabled(now, fetched);
      if r.None? {
        return;
      }
      var channels := r.value;
      for i := 0 to |channels|
        invariant told == Subscribed(channels[..i], event)
      {
        assert channels[..i + 1][..i] == channels[..i];
        if event in channels[i].events {
          told := told + [channels[i]];
        }
      }
      assert channels[..|channels|] == channels;
    }
  }
}
