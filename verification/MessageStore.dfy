/**
 * The message store behind outbox and inbox (packages/reliability/src/testing.ts:47-178): rows that
 * are leased, delivered, retried or given up. JavaScript's Map keeps insertion order, so the class
 * keeps the keys in a sequence next to the rows.
 */
module MessageStore {
  import opened Options

  type Time = int

  /** `${token}:${id}`: the token of a run or consumer together with the message it is for. */
  datatype LeaseToken = LeaseToken(token: nat, id: string)
  datatype Lease = Lease(token: LeaseToken, until: Time)

  datatype Namespace = Outbox | Inbox
  datatype Key = Key(namespace: Namespace, id: string)
  datatype Envelope = Envelope(id: string, kind: string, body: string)
  datatype MessageState = Pending | Processing | Delivered | Dead

  datatype Row = Row(
    envelope: Envelope, state: MessageState, attempts: nat, availableAt: Time,
    appendAvailableAt: Option<Time>, lease: Option<Lease>)

  datatype Change = Renew(until: Time) | Deliver | Retry(availableAt: Time) | GiveUp

  datatype InboxClaim = Claimed(attempts: nat, token: LeaseToken) | Duplicate | Busy

  // ------------------------------------------------------------------- one row

  predicate Terminal(row: Row) {
    row.state.Delivered? || row.state.Dead?
  }

  /** Pending and due, or processing under a lease that ran out. */
  predicate Claimable(row: Row, now: Time) {
    (row.state.Pending? && row.availableAt <= now) || (row.state.Processing? && row.lease.Some? && row.lease.value.until <= now)
  }

  /** take */
  function Take(row: Row, token: LeaseToken, until: Time): Row {
    row.(state := Processing, attempts := row.attempts + 1, lease := Some(Lease(token, until)))
  }

  /** The guard of `update`. */
  predicate LeasedBy(row: Row, token: LeaseToken, now: Time) {
    row.state.Processing? && row.lease.Some? && row.lease.value.token == token && row.lease.value.until > now
  }

  function Changed(row: Row, change: Change): Row
    requires row.lease.Some?
  {
    match change
    case Renew(until) => row.(lease := Some(row.lease.value.(until := Max(row.lease.value.until, until))))
    case Deliver => row.(state := Delivered, lease := None)
    case Retry(availableAt) => row.(state := Pending, availableAt := availableAt, lease := None)
    case GiveUp => row.(state := Dead, lease := None)
  }

  // ------------------------------------------------------------- the batch claim

  datatype ClaimOptions = ClaimOptions(token: nat, limit: nat, now: Time, until: Time, kinds: seq<string>, excludeIds: seq<string>)

  predicate Wanted(key: Key, row: Row, o: ClaimOptions) {
    && key.namespace.Outbox?
    && (|o.kinds| > 0 ==> row.envelope.kind in o.kinds)
    && row.envelope.id !in o.excludeIds
    && Claimable(row, o.now)
  }

  function Filtered(keys: seq<Key>, records: map<Key, Row>, o: ClaimOptions): seq<Key> {
    if |keys| == 0 then []
    else
      var rest := Filtered(keys[..|keys| - 1], records, o);
      var k := keys[|keys| - 1];
      if k in records && Wanted(k, records[k], o) then rest + [k] else rest
  }

  lemma {:induction false} FilteredFacts(keys: seq<Key>, records: map<Key, Row>, o: ClaimOptions)
    ensures forall k :: k in Filtered(keys, records, o) <==> k in keys && k in records && Wanted(k, records[k], o)
    ensures Distinct(keys) ==> Distinct(Filtered(keys, records, o))
  {
    hide Wanted;
    if |keys| > 0 {
      FilteredFacts(keys[..|keys| - 1], records, o);
      assert keys == keys[..|keys| - 1] + [keys[|keys| - 1]];
    }
  }

  predicate Distinct<T(==)>(s: seq<T>) {
    forall i, j :: 0 <= i < j < |s| ==> s[i] != s[j]
  }

  function FirstOf<T>(s: seq<T>, limit: nat): seq<T> {
    if |s| <= limit then s else s[..limit]
  }

  function Selected(keys: seq<Key>, records: map<Key, Row>, o: ClaimOptions): seq<Key> {
    FirstOf(Filtered(keys, records, o), o.limit)
  }

  function TokenFor(o: ClaimOptions, row: Row): LeaseToken {
    LeaseToken(o.token, row.envelope.id)
  }

  /** Exactly the selected rows are taken. */
  function TakeAll(records: map<Key, Row>, taken: seq<Key>, o: ClaimOptions): map<Key, Row> {
    map k | k in records :: if k in taken then Take(records[k], TokenFor(o, records[k]), o.until) else records[k]
  }

  lemma TakeOneMore(records: map<Key, Row>, rows: seq<Key>, i: nat, o: ClaimOptions)
    requires i < |rows| && rows[i] in records && rows[i] !in rows[..i]
    ensures var k := rows[i];
      TakeAll(records, rows[..i + 1], o) == TakeAll(records, rows[..i], o)[k := Take(records[k], TokenFor(o, records[k]), o.until)]
    ensures TakeAll(records, rows[..i], o)[rows[i]] == records[rows[i]]
  {
    assert rows[..i + 1] == rows[..i] + [rows[i]];
  }

  /** The selection is distinct, wanted, within the limit, and complete when the limit is not reached. */
  lemma SelectedFacts(keys: seq<Key>, records: map<Key, Row>, o: ClaimOptions)
    requires Distinct(keys)
    ensures var rows := Selected(keys, records, o);
      && Distinct(rows) && |rows| <= o.limit
      && (forall k :: k in rows ==> k in keys && k in records && Wanted(k, records[k], o))
      && (|rows| < o.limit ==> forall k :: k in keys && k in records && Wanted(k, records[k], o) ==> k in rows)
  {
    var all := Filtered(keys, records, o);
    FilteredFacts(keys, records, o);
    assert forall k :: k in Selected(keys, records, o) ==> k in all;
  }

  lemma TakenValid(records: map<Key, Row>, rows: seq<Key>, o: ClaimOptions)
    requires forall k :: k in records ==> records[k].envelope.id == k.id && (records[k].state.Processing? <==> records[k].lease.Some?)
    ensures var after := TakeAll(records, rows, o);
      forall k :: k in after ==> after[k].envelope.id == k.id && (after[k].state.Processing? <==> after[k].lease.Some?)
  {
  }

  class InMemoryReliabilityStore {
    const capacity: nat
    var records: map<Key, Row>
    var order: seq<Key>

    ghost predicate Valid()
      reads this
    {
      && Distinct(order)
      && (forall k :: k in order <==> k in records)
      && (forall k :: k in records ==> records[k].envelope.id == k.id && (records[k].state.Processing? <==> records[k].lease.Some?))
    }

    constructor (capacity: nat)
      ensures Valid() && records == map[] && order == [] && this.capacity == capacity
    {
      this.capacity := capacity;
      records := map[];
      order := [];
    }

    /** Appending the same message again changes nothing; a different one under its id is refused. */
    method Append(envelope: Envelope, availableAt: Time) returns (ok: bool)
      requires Valid()
      modifies this
      ensures Valid()
      ensures var key := Key(Outbox, envelope.id);
        && (key in old(records) ==>
              records == old(records) && (ok <==> old(records)[key].envelope == envelope && old(records)[key].appendAvailableAt == Some(availableAt)))
        && (key !in old(records) ==>
              (ok <==> |old(records)| < capacity)
              && records == if ok then old(records)[key := Row(envelope, Pending, 0, availableAt, Some(availableAt), None)] else old(records))
    {
      var key := Key(Outbox, envelope.id);
      if key in records {
        return records[key].envelope == envelope && records[key].appendAvailableAt == Some(availableAt);
      }
      if |records| >= capacity {
        return false;
      }
      records := records[key := Row(envelope, Pending, 0, availableAt, Some(availableAt), None)];
      order := order + [key];
      return true;
    }

    /**
     * The batch claim takes the first `limit` claimable messages in insertion order: distinct, none
     * excluded, and all of them when there are fewer than `limit`.
     */
    method Claim(o: ClaimOptions) returns (taken: seq<Row>)
      requires Valid()
      modifies this
      ensures Valid() && order == old(order)
      ensures records == TakeAll(old(records), Selected(order, old(records), o), o)
      ensures |taken| == |Selected(order, old(records), o)| <= o.limit
      ensures forall i :: 0 <= i < |taken| ==> Selected(order, old(records), o)[i] in records && taken[i] == records[Selected(order, old(records), o)[i]]
      ensures forall i, j :: 0 <= i < j < |taken| ==> taken[i].envelope.id != taken[j].envelope.id
      ensures forall i :: 0 <= i < |taken| ==> taken[i].envelope.id !in o.excludeIds
      ensures forall k :: k in old(records) && Wanted(k, old(records)[k], o) && |taken| < o.limit ==> k in Selected(order, old(records), o)
    {
      var rows := Select(o);
      SelectedFacts(order, records, o);
      taken := TakeRows(rows, o);
      TakenValid(old(records), rows, o);
      forall a | 0 <= a < |taken| ensures taken[a].envelope.id == rows[a].id && rows[a].namespace.Outbox? {
        assert rows[a] in rows;
      }
    }

    /** The filter and the cut of the batch claim. */
    method Select(o: ClaimOptions) returns (rows: seq<Key>)
      requires Valid()
      ensures rows == Selected(order, records, o)
    {
      rows := [];
      var i := 0;
      while i < |order|
        invariant 0 <= i <= |order|
        invariant rows == Filtered(order[..i], records, o)
      {
        assert order[..i + 1][..i] == order[..i];
        if Wanted(order[i], records[order[i]], o) {
          rows := rows + [order[i]];
        }
        i := i + 1;
      }
      assert order[..|order|] == order;
      if |rows| > o.limit {
        rows := rows[..o.limit];
      }
    }

    method TakeRows(rows: seq<Key>, o: ClaimOptions) returns (taken: seq<Row>)
      requires Distinct(rows) && forall k :: k in rows ==> k in records
      modifies this`records
      ensures records == TakeAll(old(records), rows, o)
      ensures |taken| == |rows| && forall j :: 0 <= j < |rows| ==> taken[j] == records[rows[j]]
    {
      ghost var before := records;
      taken := [];
      var i := 0;
      assert TakeAll(before, rows[..0], o) == before;
      while i < |rows|
        invariant 0 <= i <= |rows|
        invariant records == TakeAll(before, rows[..i], o)
        invariant |taken| == i && forall j :: 0 <= j < i ==> taken[j] == records[rows[j]]
      {
        var k := rows[i];
        assert k in rows && k !in rows[..i];
        TakeOneMore(before, rows, i, o);
        records := records[k := Take(records[k], TokenFor(o, records[k]), o.until)];
        taken := taken + [records[k]];
        i := i + 1;
      }
      assert rows[..|rows|] == rows;
    }

    method ClaimInbox(envelope: Envelope, token: nat, now: Time, until: Time) returns (result: Option<InboxClaim>)
      requires Valid()
      modifies this
      ensures Valid()
      ensures var key := Key(Inbox, envelope.id);
        var row := if key in old(records) then old(records)[key] else Row(envelope, Pending, 0, now, None, None);
        if key in old(records) && Terminal(row) then result == Some(Duplicate) && records == old(records)
        else if !Claimable(row, now) then result == Some(Busy) && records == old(records)
        else if key !in old(records) && |old(records)| >= capacity then result == None && records == old(records)
        else
          && result == Some(InboxClaim.Claimed(row.attempts + 1, LeaseToken(token, envelope.id)))
          && records == old(records)[key := Take(row, LeaseToken(token, envelope.id), until)]
    {
      var key := Key(Inbox, envelope.id);
      var row := Row(envelope, Pending, 0, now, None, None);
      if key in records {
        row := records[key];
        if row.state.Delivered? || row.state.Dead? {
          return Some(Duplicate);
        }
        if (row.state.Processing? && row.lease.value.until > now) || (row.state.Pending? && row.availableAt > now) {
          return Some(Busy);
        }
      } else {
        if |records| >= capacity {
          return None;
        }
        order := order + [key];
      }
      var leaseToken := LeaseToken(token, envelope.id);
      records := records[key := Take(row, leaseToken, until)];
      return Some(InboxClaim.Claimed(records[key].attempts, leaseToken));
    }

    /** delivered, renew, retry and dead: only under an unexpired lease with this token. */
    method Update(key: Key, token: LeaseToken, now: Time, change: Change) returns (ok: bool)
      requires Valid()
      modifies this`records
      ensures Valid()
      ensures ok <==> key in old(records) && LeasedBy(old(records)[key], token, now)
      ensures records == if ok then old(records)[key := Changed(old(records)[key], change)] else old(records)
    {
      if key !in records || !records[key].state.Processing? {
        return false;
      }
      var row := records[key];
      if row.lease.value.token != token || row.lease.value.until <= now {
        return false;
      }
      match change {
        case Renew(until) =>
          if until > row.lease.value.until {
            row := row.(lease := Some(row.lease.value.(until := until)));
          }
        case Deliver => row := row.(state := Delivered, lease := None);
        case Retry(availableAt) => row := row.(state := Pending, availableAt := availableAt, lease := None);
        case GiveUp => row := row.(state := Dead, lease := None);
      }
      records := records[key := row];
      return true;
    }
  }
}
