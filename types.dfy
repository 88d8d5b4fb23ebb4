/** The dashboard's shared value types (types.ts). */
module Types {

  datatype Option<+T> = None | Some(value: T)

  /** The five screens of the dashboard. */
  datatype ViewType = Dashboard | Finanzas | Analiticas | Notificaciones | Configuracion

  /** The string each view is known by in the program. */
  function ViewId(v: ViewType): string
  {
    match v
    case Dashboard => "dashboard"
    case Finanzas => "finanzas"
    case Analiticas => "analiticas"
    case Notificaciones => "notificaciones"
    case Configuracion => "configuracion"
  }

  /** Reads a view id back; any other string names no view. */
  function ViewOf(s: string): (r: Option<ViewType>)
    ensures r.Some? ==> ViewId(r.value) == s
  {
    if s == "dashboard" then Some(Dashboard)
    else if s == "finanzas" then Some(Finanzas)
    else if s == "analiticas" then Some(Analiticas)
    else if s == "notificaciones" then Some(Notificaciones)
    else if s == "configuracion" then Some(Configuracion)
    else None
  }

  /** Every view id reads back as its own view, so distinct views have distinct ids. */
  lemma ViewIdRoundTrip(v: ViewType)
    ensures ViewOf(ViewId(v)) == Some(v)
  {
  }

  /** The closed set of transaction outcomes. */
  datatype TxStatus = Completado | Pendiente | Fallido

  /** One row of the transactions table. */
  datatype Transaction = Transaction(
    id: string,
    user: string,
    email: string,
    date: string,
    amount: string,
    status: TxStatus,
    img: string)

  /** The kind of a notification; it picks the icon. */
  datatype NotificationType = Info | Success | Warning | Alert

  /** One entry of the notification centre. */
  datatype NotificationItem = NotificationItem(
    id: string,
    title: string,
    message: string,
    time: string,
    kind: NotificationType,
    read: bool)
}
