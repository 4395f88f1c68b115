/** Who is told about which equipment (iic_booking/automation/oic_alerts.py, recipients_for). */
module OicRecipients {
  import opened Common

  type UserId = nat
  type EquipmentId = nat

  /** An officer in charge of an equipment, who is active and has an email address. The table does not keep the same
      officer from being entered twice for one equipment. */
  datatype Manager = Manager(equipment: EquipmentId, user: UserId)

  /** The officers of one equipment, in table order. */
  function OfficersOf(managers: seq<Manager>, equipment: EquipmentId): seq<UserId> {
    if managers == [] then []
    else
      var m := managers[|managers| - 1];
      OfficersOf(managers[..|managers| - 1], equipment) + if m.equipment == equipment then [m.user] else []
  }

  /** The alert, once for every time the user is among these officers. */
  function Repeated(alert: EquipmentId, officers: seq<UserId>, user: UserId): seq<EquipmentId> {
    if officers == [] then []
    else Repeated(alert, officers[..|officers| - 1], user) + if officers[|officers| - 1] == user then [alert] else []
  }

  /** What the email of a user lists, in the order of the alerts. */
  function AlertsFor(alerts: seq<EquipmentId>, managers: seq<Manager>, user: UserId): seq<EquipmentId> {
    if alerts == [] then []
    else
      var alert := alerts[|alerts| - 1];
      AlertsFor(alerts[..|alerts| - 1], managers, user) + Repeated(alert, OfficersOf(managers, alert), user)
  }

  /** What is told of alerts further back comes later, and of one alert in a single place. */
  lemma {:induction false} AlertsInOrder(
      a: seq<EquipmentId>, b: seq<EquipmentId>, alert: EquipmentId, managers: seq<Manager>, user: UserId)
    ensures AlertsFor(a + b, managers, user) == AlertsFor(a, managers, user) + AlertsFor(b, managers, user)
    ensures forall x :: x in AlertsFor([alert], managers, user) ==> x == alert
  {
    assert [alert][..0] == [];
    OnlyThis(alert, OfficersOf(managers, alert), user);
    if b == [] {
      assert a + b == a;
    } else {
      var n := |b| - 1;
      AlertsInOrder(a, b[..n], alert, managers, user);
      assert (a + b)[..|a + b| - 1] == a + b[..n];
      Regroup(AlertsFor(a, managers, user), AlertsFor(b[..n], managers, user),
              Repeated(b[n], OfficersOf(managers, b[n]), user));
    }
  }

  lemma {:induction false} OnlyThis(alert: EquipmentId, officers: seq<UserId>, user: UserId)
    ensures forall x :: x in Repeated(alert, officers, user) ==> x == alert
  {
    if officers != [] {
      OnlyThis(alert, officers[..|officers| - 1], user);
    }
  }

  function Get<K, V>(m: map<K, seq<V>>, k: K): seq<V> {
    if k in m then m[k] else []
  }

  /** An insertion-ordered dictionary without empty lists. */
  ghost predicate IsTable(order: seq<UserId>, rows: map<UserId, seq<EquipmentId>>) {
    && (forall i, j :: 0 <= i < j < |order| ==> order[i] != order[j])
    && (forall u :: u in order <==> u in rows)
    && (forall u :: u in rows ==> rows[u] != [])
  }

  method ByEquipment(managers: seq<Manager>) returns (byEquipment: map<EquipmentId, seq<UserId>>)
    ensures forall e: EquipmentId :: Get(byEquipment, e) == OfficersOf(managers, e)
  {
    byEquipment := map[];
    for i := 0 to |managers|
      invariant forall e: EquipmentId :: Get(byEquipment, e) == OfficersOf(managers[..i], e)
    {
      var m := managers[i];
      assert managers[..i + 1][..i] == managers[..i];
      byEquipment := byEquipment[m.equipment := Get(byEquipment, m.equipment) + [m.user]];
    }
    assert managers[..|managers|] == managers;
  }

  method RecipientsFor(alerts: seq<EquipmentId>, managers: seq<Manager>)
    returns (order: seq<UserId>, rows: map<UserId, seq<EquipmentId>>)
    ensures IsTable(order, rows)
    ensures forall u: UserId :: Get(rows, u) == AlertsFor(alerts, managers, u)
  {
    var byEquipment := ByEquipment(managers);
    order, rows := [], map[];
    for i := 0 to |alerts|
      invariant IsTable(order, rows)
      invariant forall u: UserId :: Get(rows, u) == AlertsFor(alerts[..i], managers, u)
    {
      var officers := Get(byEquipment, alerts[i]);
      order, rows := AddAlert(order, rows, alerts[i], officers);
      assert alerts[..i + 1][..i] == alerts[..i];
    }
    assert alerts[..|alerts|] == alerts;
  }

  /** From `rows` to `rows'`, each of these officers was given the alert. */
  ghost predicate Given(rows: map<UserId, seq<EquipmentId>>, rows': map<UserId, seq<EquipmentId>>,
                        alert: EquipmentId, officers: seq<UserId>) {
    forall u: UserId :: Get(rows', u) == Get(rows, u) + Repeated(alert, officers, u)
  }

  lemma GivenMore(rows: map<UserId, seq<EquipmentId>>, mid: map<UserId, seq<EquipmentId>>,
                  rows': map<UserId, seq<EquipmentId>>, alert: EquipmentId, officers: seq<UserId>, j: nat)
    requires j < |officers| && Given(rows, mid, alert, officers[..j])
    requires forall u: UserId :: Get(rows', u) == Get(mid, u) + if u == officers[j] then [alert] else []
    ensures Given(rows, rows', alert, officers[..j + 1])
  {
    forall u: UserId
      ensures Get(rows', u) == Get(rows, u) + Repeated(alert, officers[..j + 1], u)
    {
      var more := if u == officers[j] then [alert] else [];
      assert Get(mid, u) == Get(rows, u) + Repeated(alert, officers[..j], u);
      RepeatedMore(alert, officers, j, u);
      Regroup(Get(rows, u), Repeated(alert, officers[..j], u), more);
    }
  }

  method AddAlert(order: seq<UserId>, rows: map<UserId, seq<EquipmentId>>, alert: EquipmentId, officers: seq<UserId>)
    returns (order': seq<UserId>, rows': map<UserId, seq<EquipmentId>>)
    requires IsTable(order, rows)
    ensures IsTable(order', rows')
    ensures Given(rows, rows', alert, officers)
  {
    order', rows' := order, rows;
    for j := 0 to |officers|
      invariant IsTable(order', rows')
      invariant Given(rows, rows', alert, officers[..j])
    {
      ghost var before := rows';
      order', rows' := Append(order', rows', officers[j], alert);
      GivenMore(rows, before, rows', alert, officers, j);
    }
    assert officers[..|officers|] == officers;
  }

  lemma RepeatedMore(alert: EquipmentId, officers: seq<UserId>, j: nat, user: UserId)
    requires j < |officers|
    ensures Repeated(alert, officers[..j + 1], user)
         == Repeated(alert, officers[..j], user) + if officers[j] == user then [alert] else []
  {
    assert officers[..j + 1][..j] == officers[..j];
  }

  /** `out.setdefault(user, []).append(alert)` */
  method Append(order: seq<UserId>, rows: map<UserId, seq<EquipmentId>>, user: UserId, alert: EquipmentId)
    returns (order': seq<UserId>, rows': map<UserId, seq<EquipmentId>>)
    requires IsTable(order, rows)
    ensures IsTable(order', rows')
    ensures forall u: UserId :: Get(rows', u) == Get(rows, u) + if u == user then [alert] else []
  {
    order', rows' := order, rows;
    if user !in rows' {
      order' := order' + [user];
    }
    rows' := rows'[user := Get(rows', user) + [alert]];
  }

  /* ---- What a user is told ------------------------------------------------------------------------------------- */

  lemma {:induction false} OfficerCount(managers: seq<Manager>, equipment: EquipmentId, user: UserId)
    ensures multiset(OfficersOf(managers, equipment))[user] == multiset(managers)[Manager(equipment, user)]
  {
    if managers != [] {
      var init, m := managers[..|managers| - 1], managers[|managers| - 1];
      OfficerCount(init, equipment, user);
      assert managers == init + [m];
      assert multiset(managers) == multiset(init) + multiset{m};
    }
  }

  lemma {:induction false} RepeatedCount(alert: EquipmentId, officers: seq<UserId>, user: UserId, a: EquipmentId)
    ensures multiset(Repeated(alert, officers, user))[a] == if a == alert then multiset(officers)[user] else 0
  {
    if officers != [] {
      var init, o := officers[..|officers| - 1], officers[|officers| - 1];
      RepeatedCount(alert, init, user, a);
      assert officers == init + [o];
    }
  }

  /** With each equipment flagged once, a user is told of it as often as the user is entered for it. */
  lemma {:induction false} ListedAsEntered(alerts: seq<EquipmentId>, managers: seq<Manager>, user: UserId,
                                           a: EquipmentId)
    requires forall i, j :: 0 <= i < j < |alerts| ==> alerts[i] != alerts[j]
    ensures multiset(AlertsFor(alerts, managers, user))[a]
         == if a in alerts then multiset(managers)[Manager(a, user)] else 0
  {
    if alerts != [] {
      var init, alert := alerts[..|alerts| - 1], alerts[|alerts| - 1];
      var more := Repeated(alert, OfficersOf(managers, alert), user);
      ListedAsEntered(init, managers, user, a);
      RepeatedCount(alert, OfficersOf(managers, alert), user, a);
      OfficerCount(managers, alert, user);
      assert a in alerts <==> a in init || a == alert;
    }
  }

  /** So a user gets an email exactly when one of the user's equipment is flagged, it lists exactly those, and it
      lists one twice exactly when the user is entered for it twice. */
  lemma ToldOfOwnEquipment(alerts: seq<EquipmentId>, managers: seq<Manager>, user: UserId)
    requires forall i, j :: 0 <= i < j < |alerts| ==> alerts[i] != alerts[j]
    ensures forall a :: a in AlertsFor(alerts, managers, user) <==> a in alerts && Manager(a, user) in managers
    ensures forall a :: multiset(AlertsFor(alerts, managers, user))[a] > 1 <==>
              a in alerts && multiset(managers)[Manager(a, user)] > 1
  {
    var told := AlertsFor(alerts, managers, user);
    forall a
      ensures a in told <==> a in alerts && Manager(a, user) in managers
      ensures multiset(told)[a] > 1 <==> a in alerts && multiset(managers)[Manager(a, user)] > 1
    {
      ListedAsEntered(alerts, managers, user, a);
      assert a in told <==> a in multiset(told);
      assert Manager(a, user) in managers <==> Manager(a, user) in multiset(managers);
    }
  }

  lemma EnteredTwice(alert: EquipmentId, user: UserId)
    ensures AlertsFor([alert], [Manager(alert, user), Manager(alert, user)], user) == [alert, alert]
  {
    var m := Manager(alert, user);
    assert [m, m][..1] == [m] && [m][..0] == [] && [alert][..0] == [];
    assert OfficersOf([m], alert) == [user] && OfficersOf([m, m], alert) == [user, user];
    assert [user, user][..1] == [user] && [user][..0] == [];
    assert Repeated(alert, [user], user) == [alert] && Repeated(alert, [user, user], user) == [alert, alert];
  }
}
