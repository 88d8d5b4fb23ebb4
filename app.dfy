/**
 * The application shell (App.tsx): which view is shown, whether the splash
 * screen covers it, and whether the content has finished its entry
 * transition; plus the header text and the view each state renders.
 *
 * Each `setTimeout` callback is an explicit step the environment may take once
 * it has been scheduled. The splash sequence is two such steps; every
 * navigation to another view schedules one, and since they share one delay
 * they fire in the order they were scheduled, which the queue `pending` keeps.
 */
module App {
  import opened Types

  /** The screen component `renderContent` returns. */
  datatype Screen = DashboardScreen | FinanceScreen | AnalyticsScreen | NotificationsScreen | SettingsScreen

  /** `renderContent`: a switch over the current view's id, with the dashboard as default. */
  function RenderContent(current: string): (r: Screen)
    ensures ViewOf(current) == None ==> r == DashboardScreen
  {
    if current == "dashboard" then DashboardScreen
    else if current == "finanzas" then FinanceScreen
    else if current == "analiticas" then AnalyticsScreen
    else if current == "notificaciones" then NotificationsScreen
    else if current == "configuracion" then SettingsScreen
    else DashboardScreen
  }

  /** The header's title. */
  function HeaderTitle(v: ViewType): (r: string)
    ensures r != []
  {
    if v == Analiticas then "Analíticas de Conversión"
    else if v == Configuracion then "Configuración de Tienda"
    else ViewId(v)
  }

  /**
   * The header's subtitle; the last one is the fallback. Each sentence is
   * written as two literals joined, which keeps its characters visible to the
   * verifier (it treats long literals as opaque).
   */
  function HeaderSubtitle(v: ViewType): (r: string)
    ensures r != []
  {
    if v == Dashboard then "Resumen de rendimiento " + "de tu tienda en tiempo real."
    else if v == Finanzas then "Flujo de caja, pasarelas " + "de pago y costos operativos."
    else if v == Analiticas then "Fuentes de tráfico y " + "comportamiento del comprador."
    else if v == Notificaciones then "Alertas de stock y " + "actualizaciones de pedidos."
    else "Ajustes de cuenta y " + "preferencias de visualización."
  }

  /** Where the splash sequence stands: which of its two timers is due, if any. */
  datatype SplashStage = SplashTimerDue | LoadTimerDue | SplashDone

  // ---------------------------------------------------------------------------
  // Header and dispatch

  /** Analytics and settings get their own titles; the other views show their id. */
  lemma HeaderTitleSpec(v: ViewType)
    ensures v == Analiticas ==> HeaderTitle(v) == "Analíticas de Conversión"
    ensures v == Configuracion ==> HeaderTitle(v) == "Configuración de Tienda"
    ensures v !in {Analiticas, Configuracion} ==> HeaderTitle(v) == ViewId(v)
  {
  }

  /** No two views share a title. */
  lemma HeaderTitleInjective(a: ViewType, b: ViewType)
    ensures HeaderTitle(a) == HeaderTitle(b) <==> a == b
  {
  }

  /** Each view gets its own subtitle, so none of the first four shares the fallback. */
  lemma HeaderSubtitleInjective(a: ViewType, b: ViewType)
    ensures HeaderSubtitle(a) == HeaderSubtitle(b) <==> a == b
  {
    assert |HeaderSubtitle(Dashboard)| == 51 && |HeaderSubtitle(Finanzas)| == 53;
    assert |HeaderSubtitle(Notificaciones)| == 46;
    assert |HeaderSubtitle(Analiticas)| == |HeaderSubtitle(Configuracion)| == 50;
    assert HeaderSubtitle(Analiticas)[1] == 'u' && HeaderSubtitle(Configuracion)[1] == 'j';
  }

  /** Every view renders its own screen; a string naming no view renders the dashboard. */
  lemma RenderContentDispatch(a: ViewType, b: ViewType, other: string)
    requires ViewOf(other) == None
    ensures RenderContent(ViewId(a)) == RenderContent(ViewId(b)) <==> a == b
    ensures RenderContent(ViewId(Dashboard)) == DashboardScreen
    ensures RenderContent(other) == DashboardScreen
  {
    ViewIdRoundTrip(a);
    ViewIdRoundTrip(b);
  }

  // ---------------------------------------------------------------------------
  // The shell's state

  class Shell {
    var loaded: bool
    var showSplash: bool
    var currentView: ViewType
    var splash: SplashStage
    /** Views of the navigations whose timers have not fired yet, oldest first. */
    var pending: seq<ViewType>

    /** The splash screen is up exactly until its first timer fires. */
    ghost predicate Valid()
      reads this
    {
      showSplash <==> splash == SplashTimerDue
    }

    constructor ()
      ensures Valid()
      ensures !loaded && showSplash && currentView == Dashboard
      ensures splash == SplashTimerDue && pending == []
    {
      loaded := false;
      showSplash := true;
      currentView := Dashboard;
      splash := SplashTimerDue;
      pending := [];
    }

    /** The 2500 ms splash timer: hides the splash and schedules the load timer. */
    method SplashTimerFires()
      requires Valid() && splash == SplashTimerDue
      modifies this
      ensures Valid()
      ensures !showSplash && splash == LoadTimerDue
      ensures loaded == old(loaded) && currentView == old(currentView) && pending == old(pending)
    {
      showSplash := false;
      splash := LoadTimerDue;
    }

    /** The 500 ms timer the splash timer scheduled: the content is loaded. */
    method LoadTimerFires()
      requires Valid() && splash == LoadTimerDue
      modifies this
      ensures Valid()
      ensures loaded && splash == SplashDone
      ensures showSplash == old(showSplash) && currentView == old(currentView) && pending == old(pending)
    {
      loaded := true;
      splash := SplashDone;
    }

    /** `handleNavigate(view)`: a new view starts the exit transition and schedules the switch; the current view is a no-op. */
    method Navigate(view: ViewType)
      requires Valid()
      modifies this
      ensures Valid()
      ensures view == old(currentView) ==>
        loaded == old(loaded) && pending == old(pending)
      ensures view != old(currentView) ==>
        !loaded && pending == old(pending) + [view]
      ensures currentView == old(currentView) && showSplash == old(showSplash) && splash == old(splash)
    {
      if view != currentView {
        loaded := false;
        pending := pending + [view];
      }
    }

    /** The 300 ms navigation timer: shows the requested view, loaded. */
    method NavigationTimerFires()
      requires Valid() && pending != []
      modifies this
      ensures Valid()
      ensures currentView == old(pending[0]) && loaded
      ensures pending == old(pending[1..])
      ensures showSplash == old(showSplash) && splash == old(splash)
    {
      currentView := pending[0];
      loaded := true;
      pending := pending[1..];
    }
  }
}
