/**
 * The notification centre (components/views/NotificationsView.tsx): a list of
 * notifications that the view replaces wholesale after each user action.
 */
module NotificationsView {
  import opened Types

  /** The list the view starts with. */
  const InitialNotifications: seq<NotificationItem> := [
    NotificationItem("1", "Pago Recibido", "Has recibido un pago de $450.00 de Ana García.", "Hace 2 min", Success, false),
    NotificationItem("2", "Alerta de Seguridad", "Nuevo inicio de sesión detectado en San Francisco, CA.", "Hace 1 hora", Warning, false),
    NotificationItem("3", "Mantenimiento Programado", "El sistema estará inactivo el Domingo a las 3 AM.", "Hace 5 horas", Info, true),
    NotificationItem("4", "Límite de Presupuesto", "Has alcanzado el 90% de tu presupuesto de marketing.", "Hace 1 día", Alert, true)
  ]

  predicate HasId(ns: seq<NotificationItem>, id: string)
  {
    exists i :: 0 <= i < |ns| && ns[i].id == id
  }

  /** No two notifications share an id. */
  predicate UniqueIds(ns: seq<NotificationItem>)
  {
    forall i, j :: 0 <= i < j < |ns| ==> ns[i].id != ns[j].id
  }

  /** The item as `markAsRead(id)` leaves it. */
  function ReadIfId(n: NotificationItem, id: string): NotificationItem
  {
    if n.id == id then n.(read := true) else n
  }

  /** `markAsRead(id)`: every item carrying `id` becomes read. */
  function MarkAsRead(ns: seq<NotificationItem>, id: string): (r: seq<NotificationItem>)
    ensures |r| == |ns|
  {
    if ns == [] then [] else [ReadIfId(ns[0], id)] + MarkAsRead(ns[1..], id)
  }

  /** `deleteNotification(id)`: keeps the items whose id differs from `id`. */
  function DeleteNotification(ns: seq<NotificationItem>, id: string): (r: seq<NotificationItem>)
    ensures |r| <= |ns|
  {
    if ns == [] then []
    else if ns[0].id == id then DeleteNotification(ns[1..], id)
    else [ns[0]] + DeleteNotification(ns[1..], id)
  }

  /** `markAllAsRead()`: every item becomes read. */
  function MarkAllAsRead(ns: seq<NotificationItem>): (r: seq<NotificationItem>)
    ensures |r| == |ns|
  {
    if ns == [] then [] else [ns[0].(read := true)] + MarkAllAsRead(ns[1..])
  }

  /** The buttons under one notification card: "Marcar leída" and "Eliminar". */
  datatype CardAction = MarkRead(target: string) | Remove(target: string)

  function CardActions(n: NotificationItem): (r: seq<CardAction>)
    ensures 1 <= |r| <= 2 && r[|r| - 1] == Remove(n.id)
  {
    (if !n.read then [MarkRead(n.id)] else []) + [Remove(n.id)]
  }

  /** What the list area shows: the empty-state message or one card per item. */
  datatype ListBody = EmptyState | Cards(items: seq<NotificationItem>)

  function Body(ns: seq<NotificationItem>): (b: ListBody)
    ensures b == EmptyState <==> ns == []
  {
    if |ns| == 0 then EmptyState else Cards(ns)
  }

  /** The effect of pressing a card's button. */
  function Press(ns: seq<NotificationItem>, a: CardAction): seq<NotificationItem>
  {
    match a
    case MarkRead(id) => MarkAsRead(ns, id)
    case Remove(id) => DeleteNotification(ns, id)
  }

  // ---------------------------------------------------------------------------
  // markAsRead

  /** Same length and order; the items with `id` become read with every other field kept; the rest are untouched. */
  lemma {:induction false} MarkAsReadAt(ns: seq<NotificationItem>, id: string)
    ensures |MarkAsRead(ns, id)| == |ns|
    ensures forall i :: 0 <= i < |ns| ==>
      MarkAsRead(ns, id)[i] == if ns[i].id == id then ns[i].(read := true) else ns[i]
  {
    if ns != [] {
      MarkAsReadAt(ns[1..], id);
      forall i | 0 <= i < |ns|
        ensures MarkAsRead(ns, id)[i] == if ns[i].id == id then ns[i].(read := true) else ns[i]
      {
        if i > 0 { assert ns[1..][i - 1] == ns[i]; }
      }
    }
  }

  lemma MarkAsReadIdempotent(ns: seq<NotificationItem>, id: string)
    ensures MarkAsRead(MarkAsRead(ns, id), id) == MarkAsRead(ns, id)
  {
    var once := MarkAsRead(ns, id);
    MarkAsReadAt(ns, id);
    MarkAsReadAt(once, id);
  }

  /** An item with `id` offers no "mark read" button afterwards. */
  lemma MarkAsReadHidesButton(ns: seq<NotificationItem>, id: string, i: int)
    requires 0 <= i < |ns| && ns[i].id == id
    ensures i < |MarkAsRead(ns, id)|
    ensures MarkRead(id) !in CardActions(MarkAsRead(ns, id)[i])
  {
    MarkAsReadAt(ns, id);
  }

  // ---------------------------------------------------------------------------
  // deleteNotification

  /** An item survives exactly when it was in the list and carries another id. */
  lemma {:induction false} DeleteMembership(ns: seq<NotificationItem>, id: string, n: NotificationItem)
    ensures n in DeleteNotification(ns, id) <==> n in ns && n.id != id
  {
    if ns != [] {
      DeleteMembership(ns[1..], id, n);
      assert ns == [ns[0]] + ns[1..];
    }
  }

  /** Deletion works item by item: it splits over concatenation, so survivors keep their relative order. */
  lemma {:induction false} DeleteDistributes(a: seq<NotificationItem>, b: seq<NotificationItem>, id: string)
    ensures DeleteNotification(a + b, id) == DeleteNotification(a, id) + DeleteNotification(b, id)
  {
    if a == [] {
      assert a + b == b;
    } else {
      assert (a + b)[1..] == a[1..] + b;
      DeleteDistributes(a[1..], b, id);
    }
  }

  /** A single item is dropped exactly when it carries `id`. */
  lemma DeleteSingle(n: NotificationItem, id: string)
    ensures DeleteNotification([n], id) == if n.id == id then [] else [n]
  {
  }

  /** Deleting an id that no item carries returns the list unchanged. */
  lemma {:induction false} DeleteAbsent(ns: seq<NotificationItem>, id: string)
    requires !HasId(ns, id)
    ensures DeleteNotification(ns, id) == ns
  {
    if ns != [] {
      assert ns[0].id != id;
      assert !HasId(ns[1..], id) by {
        forall i | 0 <= i < |ns[1..]| ensures ns[1..][i].id != id {
          assert ns[1..][i] == ns[i + 1];
        }
      }
      DeleteAbsent(ns[1..], id);
    }
  }

  /** With unique ids, deleting a present id removes exactly one item. */
  lemma {:induction false} DeleteUniquePresent(ns: seq<NotificationItem>, id: string)
    requires UniqueIds(ns) && HasId(ns, id)
    ensures |DeleteNotification(ns, id)| == |ns| - 1
  {
    var k :| 0 <= k < |ns| && ns[k].id == id;
    assert ns == ns[..k] + [ns[k]] + ns[k + 1..];
    DeleteDistributes(ns[..k] + [ns[k]], ns[k + 1..], id);
    DeleteDistributes(ns[..k], [ns[k]], id);
    assert !HasId(ns[..k], id) by {
      forall i | 0 <= i < k ensures ns[..k][i].id != id {
        assert ns[..k][i] == ns[i];
      }
    }
    assert !HasId(ns[k + 1..], id) by {
      var suffix := ns[k + 1..];
      forall i | 0 <= i < |suffix| ensures suffix[i].id != id {
        assert suffix[i] == ns[k + 1 + i];
      }
    }
    DeleteAbsent(ns[..k], id);
    DeleteAbsent(ns[k + 1..], id);
  }

  // ---------------------------------------------------------------------------
  // markAllAsRead

  /** Same length and order; every item is read and keeps all its other fields. */
  lemma {:induction false} MarkAllAsReadAt(ns: seq<NotificationItem>)
    ensures |MarkAllAsRead(ns)| == |ns|
    ensures forall i :: 0 <= i < |ns| ==> MarkAllAsRead(ns)[i] == ns[i].(read := true)
  {
    if ns != [] {
      MarkAllAsReadAt(ns[1..]);
      forall i | 0 <= i < |ns| ensures MarkAllAsRead(ns)[i] == ns[i].(read := true) {
        if i > 0 { assert ns[1..][i - 1] == ns[i]; }
      }
    }
  }

  lemma MarkAllAsReadIdempotent(ns: seq<NotificationItem>)
    ensures MarkAllAsRead(MarkAllAsRead(ns)) == MarkAllAsRead(ns)
  {
    MarkAllAsReadAt(ns);
    MarkAllAsReadAt(MarkAllAsRead(ns));
  }

  /** Marking one item first makes no difference to marking all. */
  lemma MarkAllAbsorbsMarkAsRead(ns: seq<NotificationItem>, id: string)
    ensures MarkAllAsRead(MarkAsRead(ns, id)) == MarkAllAsRead(ns)
  {
    MarkAsReadAt(ns, id);
    MarkAllAsReadAt(ns);
    MarkAllAsReadAt(MarkAsRead(ns, id));
  }

  /** After "mark all", no card offers the "mark read" button. */
  lemma MarkAllAsReadHidesButtons(ns: seq<NotificationItem>)
    ensures |MarkAllAsRead(ns)| == |ns|
    ensures forall i :: 0 <= i < |ns| ==> CardActions(MarkAllAsRead(ns)[i]) == [Remove(ns[i].id)]
  {
    MarkAllAsReadAt(ns);
  }

  // ---------------------------------------------------------------------------
  // How the operations fit together

  /** Reading one id and deleting another can be done in either order. */
  lemma {:induction false} DeleteCommutesWithMarkAsRead(ns: seq<NotificationItem>, a: string, b: string)
    ensures DeleteNotification(MarkAsRead(ns, a), b) == MarkAsRead(DeleteNotification(ns, b), a)
  {
    if ns != [] {
      DeleteCommutesWithMarkAsRead(ns[1..], a, b);
    }
  }

  /** No operation ever changes an id, so unique ids stay unique. */
  lemma PressKeepsIdsUnique(ns: seq<NotificationItem>, a: CardAction)
    requires UniqueIds(ns)
    ensures UniqueIds(Press(ns, a))
  {
    match a
    case MarkRead(id) =>
      MarkAsReadAt(ns, id);
    case Remove(id) =>
      DeleteKeepsIdsUnique(ns, id);
  }

  lemma {:induction false} DeleteKeepsIdsUnique(ns: seq<NotificationItem>, id: string)
    requires UniqueIds(ns)
    ensures UniqueIds(DeleteNotification(ns, id))
  {
    if ns != [] {
      assert UniqueIds(ns[1..]) by {
        forall i, j | 0 <= i < j < |ns[1..]| ensures ns[1..][i].id != ns[1..][j].id {
          assert ns[1..][i] == ns[i + 1] && ns[1..][j] == ns[j + 1];
        }
      }
      DeleteKeepsIdsUnique(ns[1..], id);
      var rest := DeleteNotification(ns[1..], id);
      forall n | n in rest ensures n.id != ns[0].id {
        DeleteMembership(ns[1..], id, n);
        var j :| 0 <= j < |ns[1..]| && ns[1..][j] == n;
        assert ns[j + 1] == n;
      }
    }
  }

  lemma MarkAllKeepsIdsUnique(ns: seq<NotificationItem>)
    requires UniqueIds(ns)
    ensures UniqueIds(MarkAllAsRead(ns))
  {
    MarkAllAsReadAt(ns);
  }

  /** The empty-state message is shown exactly when the list is empty. */
  lemma EmptyStateIffEmpty(ns: seq<NotificationItem>)
    ensures Body(ns) == EmptyState <==> ns == []
    ensures Body(ns) != EmptyState ==> Body(ns).items == ns
  {
  }

  /** The "mark read" button is offered exactly for unread items, next to a delete button always. */
  lemma MarkReadOfferedIffUnread(n: NotificationItem)
    ensures MarkRead(n.id) in CardActions(n) <==> !n.read
    ensures Remove(n.id) in CardActions(n)
  {
  }

  /** The initial list: four items with distinct ids "1".."4"; the first two are unread. */
  lemma InitialNotificationsShape()
    ensures |InitialNotifications| == 4
    ensures forall i :: 0 <= i < 4 ==> InitialNotifications[i].id == ["1234"[i]]
    ensures UniqueIds(InitialNotifications)
    ensures forall i :: 0 <= i < 4 ==> (InitialNotifications[i].read <==> i >= 2)
  {
  }
}
