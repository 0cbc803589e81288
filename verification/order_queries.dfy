/**
 * The read-only order routes: search by email or mobile, filter by status, and
 * the dashboard counts. Each runs `find` or `countDocuments` with a filter
 * document; results come back in store order (the `createdAt` sort is not
 * modelled).
 */
module OrderQueries {
  import opened Wrappers
  import opened OrderSchema

  /**
   * The filter documents these routes build. In `ContactIs`, `None` stands for
   * `null`, which matches a document whose field is null or missing.
   * `ContactGiven` tests only the keys that are present.
   */
  datatype Filter =
    | ContactIs(email: Option<string>, phone: Option<string>)
    | ContactGiven(email: Option<string>, phone: Option<string>)
    | StatusIs(name: string)

  predicate Matches(o: Order, f: Filter) {
    match f
    case ContactIs(e, m) => o.user.email == e || o.user.phone == m
    case ContactGiven(e, m) => (e.Some? && o.user.email == e) || (m.Some? && o.user.phone == m)
    case StatusIs(name) => StatusName(o.status) == name
  }

  /** `find(filter)`: the matching documents, in store order (see FindMembers and FindAppend). */
  function Find(orders: seq<Order>, f: Filter): (r: seq<Order>)
    ensures |r| <= |orders|
  {
    if orders == [] then []
    else if Matches(orders[0], f) then [orders[0]] + Find(orders[1..], f)
    else Find(orders[1..], f)
  }

  /** find returns exactly the stored documents that match the filter. */
  lemma {:induction false} FindMembers(orders: seq<Order>, f: Filter)
    ensures forall o :: o in Find(orders, f) <==> o in orders && Matches(o, f)
  {
    if orders != [] {
      FindMembers(orders[1..], f);
      assert orders == [orders[0]] + orders[1..];
    }
  }

  /** Store order is kept: the result on a concatenation is the concatenation of the results. */
  lemma {:induction false} FindAppend(a: seq<Order>, b: seq<Order>, f: Filter)
    ensures Find(a + b, f) == Find(a, f) + Find(b, f)
  {
    if a == [] {
      assert a + b == b;
    } else {
      assert (a + b)[0] == a[0] && (a + b)[1..] == a[1..] + b;
      FindAppend(a[1..], b, f);
    }
  }

  /** A filter no stored order satisfies selects nothing. */
  lemma {:induction false} FindNoMatch(orders: seq<Order>, f: Filter)
    requires forall k :: 0 <= k < |orders| ==> !Matches(orders[k], f)
    ensures Find(orders, f) == []
  {
    if orders != [] {
      FindNoMatch(orders[1..], f);
    }
  }

  datatype SearchResponse = MissingQuery | Orders(orders: seq<Order>)

  /** `x || null`. */
  function OrNull(x: Option<string>): (r: Option<string>)
    ensures r.Some? <==> Truthy(x)
    ensures r.Some? ==> r == x
  {
    if Truthy(x) then x else None
  }

  /**
   * The search route as written: rejected without email and mobile, otherwise
   * the orders whose user email equals `email || null` or whose user phone
   * equals `mobile || null`.
   */
  function SearchAsWritten(orders: seq<Order>, email: Option<string>, mobile: Option<string>): (r: SearchResponse)
    ensures r.MissingQuery? <==> !Truthy(email) && !Truthy(mobile)
    ensures r.Orders? ==> forall o :: o in r.orders <==>
      o in orders && (o.user.email == OrNull(email) || o.user.phone == OrNull(mobile))
  {
    if !Truthy(email) && !Truthy(mobile) then MissingQuery
    else
      FindMembers(orders, ContactIs(OrNull(email), OrNull(mobile)));
      Orders(Find(orders, ContactIs(OrNull(email), OrNull(mobile))))
  }

  /**
   * The discrepancy: a search by email alone also returns an order of another
   * buyer, because that order has no phone and the omitted mobile is compared
   * against null.
   */
  lemma SearchByEmailReturnsPhonelessOrders(o: Order)
    requires o.user.email == Some("b@example.com") && o.user.phone.None?
    ensures SearchAsWritten([o], Some("a@example.com"), None) == Orders([o])
    ensures Search([o], Some("a@example.com"), None) == Orders([])
  {
  }

  /**
   * Search by email or mobile: rejected without either; otherwise exactly the
   * orders, in store order, whose user email is the given email or whose user
   * phone is the given mobile. An omitted key matches nothing.
   */
  function Search(orders: seq<Order>, email: Option<string>, mobile: Option<string>): (r: SearchResponse)
    ensures r.MissingQuery? <==> !Truthy(email) && !Truthy(mobile)
    ensures r.Orders? ==> forall o :: o in r.orders <==>
      o in orders && ((Truthy(email) && o.user.email == email) || (Truthy(mobile) && o.user.phone == mobile))
  {
    if !Truthy(email) && !Truthy(mobile) then MissingQuery
    else
      FindMembers(orders, ContactGiven(OrNull(email), OrNull(mobile)));
      Orders(Find(orders, ContactGiven(OrNull(email), OrNull(mobile))))
  }

  /**
   * Filter by status: the orders stored with that status text. A text that
   * names no status matches nothing; one that does selects exactly the orders
   * with that status.
   */
  function FilterByStatus(orders: seq<Order>, name: string): (r: seq<Order>)
    ensures ParseStatus(name).None? ==> r == []
    ensures ParseStatus(name).Some? ==> forall o :: o in r <==> o in orders && o.status == ParseStatus(name).value
  {
    var r := Find(orders, StatusIs(name));
    FindMembers(orders, StatusIs(name));
    if ParseStatus(name).None? then
      FindNoMatch(orders, StatusIs(name));
      r
    else
      assert forall o: Order :: StatusName(o.status) == name <==> o.status == ParseStatus(name).value by {
        forall o: Order ensures StatusName(o.status) == name <==> o.status == ParseStatus(name).value {
          StatusNameInjective(o.status, ParseStatus(name).value);
        }
      }
      r
  }

  /** `countDocuments({status: name})`. */
  function CountWithStatus(orders: seq<Order>, name: string): (r: nat)
    ensures r <= |orders|
    ensures ParseStatus(name).None? ==> r == 0
  {
    assert ParseStatus(name).None? ==> Find(orders, StatusIs(name)) == [] by {
      if ParseStatus(name).None? {
        FindNoMatch(orders, StatusIs(name));
      }
    }
    |Find(orders, StatusIs(name))|
  }

  /**
   * The dashboard: `totalOrders` is the number of orders, and `statusCounts`
   * holds, under the text of each of the eleven statuses, the number of orders
   * with that status.
   */
  method DashboardCounts(orders: seq<Order>) returns (totalOrders: nat, statusCounts: map<string, nat>)
    ensures totalOrders == |orders|
    ensures statusCounts.Keys == set s | s in AllStatuses :: StatusName(s)
    ensures forall s: Status :: StatusName(s) in statusCounts && statusCounts[StatusName(s)] == CountWithStatus(orders, StatusName(s))
  {
    statusCounts := map[];
    for i := 0 to |AllStatuses|
      invariant statusCounts.Keys == NamesUpTo(i)
      invariant forall j :: 0 <= j < i ==> statusCounts[StatusName(AllStatuses[j])] == CountWithStatus(orders, StatusName(AllStatuses[j]))
    {
      var name := StatusName(AllStatuses[i]);
      NextName(i);
      statusCounts := statusCounts[name := CountWithStatus(orders, name)];
    }
    totalOrders := |orders|;
    forall s: Status ensures StatusName(s) in statusCounts && statusCounts[StatusName(s)] == CountWithStatus(orders, StatusName(s)) {
      AllStatusesListsEachOnce(s);
      var j :| 0 <= j < |AllStatuses| && AllStatuses[j] == s;
    }
    EnumerationNames();
  }

  /** The texts of the first `i` statuses of the enumeration. */
  function NamesUpTo(i: nat): set<string>
    requires i <= |AllStatuses|
  {
    set j | 0 <= j < i :: StatusName(AllStatuses[j])
  }

  /** Each step of the dashboard loop adds one text, new to the keys so far. */
  lemma NextName(i: nat)
    requires i < |AllStatuses|
    ensures NamesUpTo(i + 1) == NamesUpTo(i) + {StatusName(AllStatuses[i])}
    ensures StatusName(AllStatuses[i]) !in NamesUpTo(i)
  {
    assert forall k :: 0 <= k < |AllStatuses| ==> Position(AllStatuses[k]) == k;
    forall j | 0 <= j < i ensures StatusName(AllStatuses[j]) != StatusName(AllStatuses[i]) {
      StatusNameInjective(AllStatuses[j], AllStatuses[i]);
    }
  }

  /** The names of the enumeration, listed by position or by member, are the same set. */
  lemma EnumerationNames()
    ensures NamesUpTo(|AllStatuses|) == set s | s in AllStatuses :: StatusName(s)
  {
  }

  /**
   * `countDocuments({status: s})` over the stored status fields themselves, as
   * the collection holds them when a save has removed the field. Order values
   * always carry one of the eleven statuses, so CountWithStatus counts those;
   * this count is the one the dashboard runs when some document has no status.
   * A removed field matches no status.
   */
  function CountFieldsWithStatus(fields: seq<StatusField>, s: Status): (r: nat)
    ensures r <= |fields|
    ensures Set(s) !in fields ==> r == 0
  {
    if fields == [] then 0
    else (if fields[0] == Set(s) then 1 else 0) + CountFieldsWithStatus(fields[1..], s)
  }

  /** The dashboard's per-status counts over the statuses `ss`, summed, as written. */
  function FieldCountSum(ss: seq<Status>, fields: seq<StatusField>): nat {
    if ss == [] then 0 else CountFieldsWithStatus(fields, ss[0]) + FieldCountSum(ss[1..], fields)
  }

  /** A collection whose orders all lack a status counts zero under every status. */
  lemma {:induction false} FieldCountSumOfUnset(ss: seq<Status>, fields: seq<StatusField>)
    requires forall k :: 0 <= k < |fields| ==> fields[k] == Unset
    ensures FieldCountSum(ss, fields) == 0
  {
    if ss != [] {
      assert Set(ss[0]) !in fields;
      FieldCountSumOfUnset(ss[1..], fields);
    }
  }

  /** The sum of the per-status counts over the statuses `ss`. */
  function CountSum(ss: seq<Status>, orders: seq<Order>): nat {
    if ss == [] then 0 else CountWithStatus(orders, StatusName(ss[0])) + CountSum(ss[1..], orders)
  }

  /** Adding one order adds one to the count of every listed occurrence of its status. */
  lemma {:induction false} CountSumCons(ss: seq<Status>, o: Order, rest: seq<Order>)
    ensures CountSum(ss, [o] + rest) == Occurrences(ss, o.status) + CountSum(ss, rest)
  {
    if ss != [] {
      assert ([o] + rest)[0] == o && ([o] + rest)[1..] == rest;
      StatusNameInjective(o.status, ss[0]);
      CountSumCons(ss[1..], o, rest);
    }
  }

  /**
   * Every order has exactly one of the eleven statuses, so the dashboard's
   * per-status counts add up to `totalOrders`.
   */
  lemma {:induction false} StatusCountsSumToTotal(orders: seq<Order>)
    ensures CountSum(AllStatuses, orders) == |orders|
  {
    if orders == [] {
      assert CountSum(AllStatuses, orders) == 0 by {
        ZeroCounts(AllStatuses);
      }
    } else {
      assert orders == [orders[0]] + orders[1..];
      CountSumCons(AllStatuses, orders[0], orders[1..]);
      AllStatusesListsEachOnce(orders[0].status);
      StatusCountsSumToTotal(orders[1..]);
    }
  }

  /** An empty collection counts zero for every status. */
  lemma {:induction false} ZeroCounts(ss: seq<Status>)
    ensures CountSum(ss, []) == 0
  {
    if ss != [] {
      ZeroCounts(ss[1..]);
    }
  }
}
