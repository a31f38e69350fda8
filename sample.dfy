/**
 * The sample app's route registration: `AboutPage` and `AgendaPage` as
 * Shell contents, and `AppointmentPage` as a route nested under `AgendaPage`.
 */
module Sample {
  import opened Wrappers
  import opened Routing

  const AboutPage := TypeRef("Maux.Sample.Pages.AboutPage", "AboutPage")
  const AgendaPage := TypeRef("Maux.Sample.Pages.AgendaPage", "AgendaPage")
  const AppointmentPage := TypeRef("Maux.Sample.Pages.AppointmentPage", "AppointmentPage")
  const AboutPageModel := TypeRef("Maux.Sample.ViewModels.AboutPageModel", "AboutPageModel")
  const AgendaPageModel := TypeRef("Maux.Sample.ViewModels.AgendaPageModel", "AgendaPageModel")
  const AppointmentPageModel := TypeRef("Maux.Sample.ViewModels.AppointmentPageModel", "AppointmentPageModel")

  /** The routes the sample's registrations compose. */
  lemma SampleElementRoutes()
    ensures ElementRoute("", RouteName(AboutPage, None)) == "AboutPage"
    ensures ElementRoute("", RouteName(AgendaPage, None)) == "AgendaPage"
    ensures ElementRoute("AgendaPage", RouteName(AppointmentPage, None)) == "AgendaPage/AppointmentPage"
  {
    RootElementRoute("AboutPage");
    RootElementRoute("AgendaPage");
    NestedElementRoute("AgendaPage", "AppointmentPage");
    assert "AgendaPage" + "/" + "AppointmentPage" == "AgendaPage/AppointmentPage";
  }

  /**
   * The registrations of the sample app, starting from the empty root base:
   * every registration succeeds, the nested page gets its parent's route as
   * base, and only that nested route is registered with the Shell router.
   */
  method RegisterSampleRoutes() returns (host: Host, navigationMap: MauxNavigationMap)
    ensures fresh(host) && fresh(navigationMap)
    ensures navigationMap.Valid()
    ensures navigationMap.routeToType ==
              map["AboutPage" := AboutPage, "AgendaPage" := AgendaPage,
                  "AgendaPage/AppointmentPage" := AppointmentPage]
    ensures host.shellRoutes == ["AgendaPage/AppointmentPage"]
  {
    host := new Host();
    navigationMap := new MauxNavigationMap();
    var root := new MauxNavigationBuilder(host, navigationMap, "");
    var agenda := RegisterShellContents(root);
    SampleElementRoutes();
    var appointmentOutcome, appointment := agenda.AddRoute(AppointmentPage, Some(AppointmentPageModel), None);
  }

  /**
   * The two Shell contents under the root builder; returns the builder the
   * agenda's callback receives.
   */
  method RegisterShellContents(root: MauxNavigationBuilder) returns (agenda: MauxNavigationBuilder)
    requires root.baseRoute == "" && root.navigationMap.Valid()
    requires root.navigationMap.routeToType == map[] && root.host.shellRoutes == []
    modifies root.navigationMap, root.host
    ensures root.navigationMap.Valid()
    ensures root.navigationMap.routeToType == map["AboutPage" := AboutPage, "AgendaPage" := AgendaPage]
    ensures root.host.shellRoutes == []
    ensures agenda.baseRoute == "AgendaPage"
    ensures agenda.host == root.host && agenda.navigationMap == root.navigationMap
  {
    SampleElementRoutes();
    var aboutOutcome, about := root.AddContent(AboutPage, Some(AboutPageModel), None);
    assert root.navigationMap.routeToType == map["AboutPage" := AboutPage];
    var agendaOutcome;
    agendaOutcome, agenda := root.AddContent(AgendaPage, Some(AgendaPageModel), None);
  }
}
