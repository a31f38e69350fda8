# Maux navigation and page lifecycle in Dafny

Maux is a convenience layer over .NET MAUI. It has four parts that this project models:

- Route registration. A fluent builder registers page types under route strings, and nested registrations compose `parent/child` routes. The registrations go into a two-way route map.
- Shell navigation. A resolver turns a list of navigation chunks (a route segment, with optional parameters) into one or more Shell router calls. Type-directed navigation picks the registered route that shares the most leading segments with the current location.
- Stack navigation (`AppNavigation`). This facade pushes and pops pages through the current `INavigation`. It delivers an "intent" to the page that will be shown.
- The intent handshake between a page and its page model:
  - a content page marks itself dirty whenever its intent is assigned;
  - when it appears, it prepares its page model with the intent;
  - it gates the application's sleep/resume hooks on its visibility.

The sample app's in-memory `ModelServiceBase` store is modelled as well, together with the sample's route registrations.

Modules:

| module | file | models |
|---|---|---|
| `Wrappers` | wrappers.dfy | `Option`, `Result`, `Outcome` and the .NET exceptions as `Error`; `Value` for a C# `object?`; the `"{Intent}"` parameter name |
| `Text` | text.dfy | `TrimStart(char)`, `StartsWith`, `EndsWith`, `string.Join`, `Split(char)` |
| `Routing` | routing.dfy | `MauxNavigationMap`, `MauxNavigationBuilder`, and the host's DI and Shell route registries (`Host`) |
| `ShellNav` | shell_navigation.dfy | `ShellParameters`, `ShellNavigationChunk` conversions, the chunk resolver, `ShellNavigation` |
| `Mvvm` | mvvm.dfy | `MauxPageModel`, `MauxContentPage`, `MauxShellPage`, `AppNavigation`, the host `INavigation` |
| `ModelService` | model_service.dfy | `ModelServiceBase<TModel>` |
| `Sample` | sample.dfy | the sample app's `UseShellNavigation` registrations |

How the model represents the source:

- The source's exceptions are failure values (`Result`, `Outcome`).
- Classes whose fields the source updates in place are Dafny classes: the route map, the builders, the pages, the page model, the facade and the store.
- Calls into the host framework are recorded instead of performed:
  - a `Shell.GoToAsync` call becomes a `GoTo` value that `NavigateAsync` returns;
  - an `INavigation` call is appended to `Navigation.requests`;
  - `TryAddScoped` and `Routing.RegisterRoute` update the `Host` sets and lists.
- The current Shell location is a parameter.
- The page that `ScopedRouteFactory` creates for a push is a parameter.
- The `navigation` callback of `AddContent`/`AddRoute` is represented by the nested builder those methods return: it is the builder the callback would receive.
- The chunk resolver's nested loops are one method with its inner loop factored out (`ShellNav.ReadBatch`). Both loops are proved against `ShellNav.Resolve`, a recursive definition of the router calls made, batch by batch.
- The source tests for the root marker with string comparisons (`== "//"`, `StartsWith("//")`, `EndsWith("/")`). The model tests characters, which is ordinal comparison. `ShellNav.MarkerMeaning` proves the character tests agree with an ordinal `==` and an ordinal prefix test.
- `GetClosestRoute` orders a `HashSet` by score and takes the first entry. The model walks the set in an arbitrary order and keeps the first best score it meets. The proved property is that the result has the highest score.

Where the library's design description and its code differ, the model follows the code:

- An absolute chunk (`//Name`) in the middle of a batch resets the base route, but it keeps the segments the batch collected before it. `("Child", "//Root")` goes to `//Child/Root`, not `//Root` (`ShellNav.AbsoluteMidBatchKeepsEarlierSegments`).
- `IsPreparing` is already true on a new page model, before any prepare has run (`Mvvm.MauxPageModel.constructor`).
- A page's intent is cleared as dirty only when the page's binding context is a page model. Otherwise it stays dirty (`Mvvm.MauxContentPage.OnAppearing`).
- With a Shell location such as `//AgendaPage`, every non-empty registered route scores 0. Registered routes never start with `/`, so the "closest route" is whichever the set yields first (`ShellNav.AbsoluteLocationAnyRouteIsClosest`).

## Model

| member | source | states |
|---|---|---|
| Routing.MauxNavigationMap.constructor | Maux.Mvvm/Extensions/MauxNavigationBuilder.cs:9-10 | both directions of the map start empty and consistent |
| Routing.MauxNavigationMap.Add | Maux.Mvvm/Extensions/MauxNavigationBuilder.cs:12-23 | a route already present fails with an argument error and changes nothing; otherwise the route maps to the type, the route joins the type's routes, earlier routes of the type are kept, and the two directions stay consistent |
| Routing.MauxNavigationMap.GetRouteType | Maux.Mvvm/Extensions/MauxNavigationBuilder.cs:25-28 | the type registered for the route; an unknown route is a not-found failure |
| Routing.MauxNavigationMap.GetRoutes | Maux.Mvvm/Extensions/MauxNavigationBuilder.cs:30-38 | exactly the routes whose type is the given one, never an empty set; a type never added is a not-found failure |
| Routing.Host.TryAddScoped | Maux.Mvvm/Extensions/MauxNavigationBuilder.cs:86 | the type is registered as a scoped service, once |
| Routing.Host.RegisterRoute | Maux.Mvvm/Extensions/MauxNavigationBuilder.cs:174 | the route is appended to the Shell router's registrations |
| Routing.ElementRouteIsRelative | Maux.Mvvm/Extensions/MauxNavigationBuilder.cs:88 | a composed route never starts with `/` |
| Routing.RootElementRoute | Maux.Mvvm/Extensions/MauxMauiAppBuilderExtensions.cs:49 | under the empty root base, the composed route is the route name with its leading `/` trimmed; a name without a leading `/` is kept as it is |
| Routing.NestedElementRoute | Maux.Mvvm/Extensions/MauxNavigationBuilder.cs:91 | under a parent route (non-empty, no leading `/`), a child's route is `parent/child` |
| Routing.MauxNavigationBuilder.constructor | Maux.Mvvm/Extensions/MauxNavigationBuilder.cs:51-56 | the builder keeps its services, map and base route |
| Routing.MauxNavigationBuilder.AddContent | Maux.Mvvm/Extensions/MauxNavigationBuilder.cs:83-93 | registers the view model (when given) and the page as scoped services; maps the composed route (the given one or the page's type name) to the page, with the map's failure on a duplicate; the nested builder has the composed route as its base |
| Routing.MauxNavigationBuilder.AddRoute | Maux.Mvvm/Extensions/MauxNavigationBuilder.cs:167-179 | the same services and map entry as `AddContent`, and on success the composed route is also registered with the Shell router, after the map entry |
| Text.TrimStart | Maux.Mvvm/Extensions/MauxNavigationBuilder.cs:88 | trimming never lengthens a string |
| Text.TrimStartSpec | Maux.Mvvm/Navigation/ShellNavigation.cs:91 | the result is a suffix that does not start with the character, and everything cut off is that character |
| Text.Split | Maux.Mvvm/Navigation/ShellNavigation.cs:130-131 | at least one piece, and no piece contains the separator |
| Text.JoinSplit | Maux.Mvvm/Navigation/ShellNavigation.cs:130-131 | joining the pieces of a split with the separator gives back the string |
| Text.SplitJoin | Maux.Mvvm/Navigation/ShellNavigation.cs:130-131 | splitting a join of separator-free pieces gives the pieces back |
| Text.SplitFirstEmpty | Maux.Mvvm/Navigation/ShellNavigation.cs:130 | the first piece is empty exactly when the string is empty or starts with the separator |
| ShellNav.IntentParameters | Maux.Mvvm/Navigation/ShellNavigation.cs:123 | the intent map has the single key `"{Intent}"`, mapped to the intent |
| ShellNav.ChunkFromRoute | Maux.Mvvm/Navigation/ShellNavigationChunk.cs:31-32 | a bare route name keeps the name exactly and has no parameters |
| ShellNav.ChunkFromIntent | Maux.Mvvm/Navigation/ShellNavigationChunk.cs:15-16 | keeps the name; its parameters have the single key `"{Intent}"`, mapped to the intent |
| ShellNav.ChunkFromParameters | Maux.Mvvm/Navigation/ShellNavigationChunk.cs:23-24 | keeps the name and the parameter map unchanged |
| ShellNav.NewShellParameters | Maux.Mvvm/Navigation/ShellParameters.cs:21-36 | succeeds exactly for an even-length list with distinct string keys, otherwise fails with an argument error (an odd length always fails); on success each key maps to the element after it, and there are no other keys |
| ShellNav.FirstKeysMembers | Maux.Mvvm/Navigation/ShellParameters.cs:28-35 | the keys added by the first n pairs are exactly those pairs' keys |
| ShellNav.FirstKeysCount | Maux.Mvvm/Navigation/ShellParameters.cs:28-35 | n pairs with distinct keys add n keys |
| ShellNav.ParameterMapSize | Maux.Mvvm/Navigation/ShellParameters.cs:28-35 | the map built from 2n elements has n entries; the empty list gives the empty map |
| ShellNav.BatchLen | Maux.Mvvm/Navigation/ShellNavigation.cs:76-94 | a batch takes at least one chunk and no more than are left |
| ShellNav.BatchLenSpec | Maux.Mvvm/Navigation/ShellNavigation.cs:76-94 | a batch has no closing chunk before its last, and it ends at a closing chunk unless it takes everything |
| ShellNav.BatchLenUnique | Maux.Mvvm/Navigation/ShellNavigation.cs:76-94 | the batch length is the only length with those properties |
| ShellNav.BatchFrom | Maux.Mvvm/Navigation/ShellNavigation.cs:76-94 | the chunks from a start index up to and including the first closing chunk (or to the end) form the first batch of what remains |
| ShellNav.ResolveStep | Maux.Mvvm/Navigation/ShellNavigation.cs:73-106 | the calls for a chunk list are its first batch's call, followed by the calls for the rest starting from that call's route |
| ShellNav.BatchSnoc | Maux.Mvvm/Navigation/ShellNavigation.cs:80-91 | reading one more chunk adds its segment (none for the marker), and the batch becomes absolute if that chunk is |
| ShellNav.ReadBatch | Maux.Mvvm/Navigation/ShellNavigation.cs:75-94 | the inner loop stops right after the first closing chunk, or at the end; it collects the batch's segments (markers excluded) and leaves the route at `//` if the batch has an absolute chunk, else unchanged |
| ShellNav.ShellNavigation.constructor | Maux.Mvvm/Navigation/ShellNavigation.cs:53-56 | the service keeps the route map |
| ShellNav.ShellNavigation.NavigateAsync | Maux.Mvvm/Navigation/ShellNavigation.cs:59-107 | no chunks is an argument error; otherwise the router calls made are exactly `Resolve` of the location and the chunks |
| ShellNav.MarkerMeaning | Maux.Mvvm/Navigation/ShellNavigation.cs:80-86 | the marker test is `routeName == "//"`, and the absolute test is an ordinal `routeName.StartsWith("//")` |
| ShellNav.ResolveCount | Maux.Mvvm/Navigation/ShellNavigation.cs:73-106 | one router call per closing chunk before the last chunk, plus one for the final batch |
| ShellNav.ResolveParameters | Maux.Mvvm/Navigation/ShellNavigation.cs:93-105 | every call but the last passes parameters, because its batch closed at a chunk that carries them |
| ShellNav.ResolveLastParameters | Maux.Mvvm/Navigation/ShellNavigation.cs:103-105 | there is at least one call, and the last call passes the last chunk's parameters (none if it has none) |
| ShellNav.AbsoluteFirstChunk | Maux.Mvvm/Navigation/ShellNavigation.cs:86-89 | a navigation that starts with an absolute chunk makes the same calls from any location |
| ShellNav.SingleBatch | Maux.Mvvm/Navigation/ShellNavigation.cs:96-101 | without a closing chunk there is one call: the location, a `/` unless it ends in one, and all segments joined by `/` |
| ShellNav.ExampleRelative | Maux.Mvvm/Navigation/ShellNavigation.cs:96-101 | `("Child", "Nested")` navigates once, to `location/Child/Nested`, without parameters |
| ShellNav.ExampleAbsolute | Maux.Mvvm/Navigation/ShellNavigation.cs:80-84 | `("//", "SomeRootPage")` navigates once, to `//SomeRootPage`, from any location |
| ShellNav.TwoBatches | Maux.Mvvm/Navigation/ShellNavigation.cs:93-105 | a closing first chunk followed by one more chunk makes two calls, and the second starts from the first call's route |
| ShellNav.OneSegment | Maux.Mvvm/Navigation/ShellNavigation.cs:96-101 | a batch of one relative chunk goes one segment below the current route, with a `/` added unless the route ends in one |
| ShellNav.ExampleTwoBatches | Maux.Mvvm/Navigation/ShellNavigation.cs:93 | parameters on the first chunk make two calls: to `location/Child` with those parameters, then to `location/Child/Nested` with the second chunk's |
| ShellNav.AbsoluteMidBatchKeepsEarlierSegments | Maux.Mvvm/Navigation/ShellNavigation.cs:86-91 | `("Child", "//Root")` navigates to `//Child/Root`: the reset keeps the segment collected before it |
| ShellNav.CommonPrefixLength | Maux.Mvvm/Navigation/ShellNavigation.cs:133 | the count is within both lengths, the segments agree below it, and they differ at it when both lists go on |
| ShellNav.CommonPrefixUnique | Maux.Mvvm/Navigation/ShellNavigation.cs:133 | those three properties determine the count |
| ShellNav.ShellNavigation.LongestCommonPath | Maux.Mvvm/Navigation/ShellNavigation.cs:128-135 | the loop returns the common-prefix length of the two `/`-split segment lists |
| ShellNav.ScoreSymmetric | Maux.Mvvm/Navigation/ShellNavigation.cs:128-135 | the score does not depend on the order of the two routes |
| ShellNav.ScoreSelf | Maux.Mvvm/Navigation/ShellNavigation.cs:128-135 | a route shares all its segments with itself |
| ShellNav.AbsoluteLocationScoresZero | Maux.Mvvm/Navigation/ShellNavigation.cs:116 | a location starting with `/` shares no leading segment with a non-empty route that does not start with `/` |
| ShellNav.AbsoluteLocationAnyRouteIsClosest | Maux.Mvvm/Navigation/ShellNavigation.cs:125-126 | from such a location, every registered route is a closest one |
| ShellNav.ShellNavigation.GetClosestRoute | Maux.Mvvm/Navigation/ShellNavigation.cs:125-126 | the result is one of the routes, and no route scores higher |
| ShellNav.PickOnly | Maux.Mvvm/Navigation/ShellNavigation.cs:114-115 | the element of a one-element set |
| ShellNav.OnlyIsClosest | Maux.Mvvm/Navigation/ShellNavigation.cs:114-116 | the only route of a set is a closest one |
| ShellNav.ShellNavigation.NavigateToPageAsync | Maux.Mvvm/Navigation/ShellNavigation.cs:110-119 | succeeds exactly when the page type has routes, otherwise a not-found failure; navigates to `//` + a closest route (the only one when there is one) and passes the parameters unchanged |
| ShellNav.ShellNavigation.NavigateToPageWithIntentAsync | Maux.Mvvm/Navigation/ShellNavigation.cs:122-123 | as `NavigateToPageAsync`, with the one-entry `"{Intent}"` map as parameters |
| Mvvm.MauxPageModel.constructor | Maux.Mvvm/MauxPageModel.cs:26-27 | a new page model is both preparing and initializing |
| Mvvm.MauxPageModel.PrepareAsync | Maux.Mvvm/MauxPageModel.cs:77 | the prepare step changes no state; the base implementation passes |
| Mvvm.MauxPageModel.OnPrepareAsync | Maux.Mvvm/MauxPageModel.cs:52-70 | runs prepare once, with the intent, while `IsPreparing` reads true; afterwards both flags are false whether prepare passed or failed, and its outcome is returned |
| Mvvm.HooksGating | Maux.Mvvm/MauxContentPage.cs:148-162 | under `VisibleOnly` the hooks run exactly while the page is visible; under `Lifetime` they always run |
| Mvvm.MauxContentPage.constructor | Maux.Mvvm/MauxContentPage.cs:75-89 | a new page holds the intent and is dirty even for a null intent; it is not visible and uses `VisibleOnly`; it subscribes to both application events; it is bound to the page model when one is given |
| Mvvm.MauxContentPage.SetIntent | Maux.Mvvm/MauxContentPage.cs:41-49 | any assignment sets the intent and the dirty flag, even for null or an equal value |
| Mvvm.MauxContentPage.SetSleepBehavior | Maux.Mvvm/MauxContentPage.cs:52 | sets the gating policy |
| Mvvm.MauxContentPage.OnAppearing | Maux.Mvvm/MauxContentPage.cs:99-111 | the page becomes visible and publishes its navigation to the setter (if one is registered); if it is dirty and bound to a page model, it becomes clean and prepares the model once with its intent; otherwise the flag and the model are untouched |
| Mvvm.MauxContentPage.OnDisappearing | Maux.Mvvm/MauxContentPage.cs:114-118 | the page is no longer visible |
| Mvvm.MauxContentPage.ApplicationResumingHandler | Maux.Mvvm/MauxContentPage.cs:148-154 | the resume hook runs once exactly when the policy is `Lifetime` or the page is visible |
| Mvvm.MauxContentPage.ApplicationEnteringSleepHandler | Maux.Mvvm/MauxContentPage.cs:156-162 | the sleep hook runs once exactly when the policy is `Lifetime` or the page is visible |
| Mvvm.MauxContentPage.Dispose | Maux.Mvvm/MauxContentPage.cs:139-146 | the page is removed from both application events, and nothing else changes |
| Mvvm.QueryIntent | Maux.Mvvm/Shell/MauxShellPage.cs:31 | a query carries an intent exactly when it has the `"{Intent}"` key, and the intent is that key's value |
| Mvvm.QueryIntentIgnoresOtherKeys | Maux.Mvvm/Shell/MauxShellPage.cs:31 | queries that agree on `"{Intent}"` carry the same intent, whatever their other keys |
| Mvvm.MauxShellPage.constructor | Maux.Mvvm/Shell/MauxShellPage.cs:24-26 | the Shell page wraps its content page |
| Mvvm.MauxShellPage.ApplyQueryAttributes | Maux.Mvvm/Shell/MauxShellPage.cs:29-35 | a query with an intent assigns it and marks the page dirty; any other query leaves the intent and the flag as they were; the query is only read |
| Mvvm.PushTarget | Maux.Mvvm/Navigation/AppNavigation.cs:141 | a pushed page receives the intent only when the intent is non-null, and only if it is a Maux page |
| Mvvm.PopTarget | Maux.Mvvm/Navigation/AppNavigation.cs:182 | a pop's target is on the navigation stack, and there is one only for a non-null intent |
| Mvvm.PopModalTarget | Maux.Mvvm/Navigation/AppNavigation.cs:197-210 | a modal pop's target is on one of the two stacks, and there is one only for a non-null intent |
| Mvvm.PopToRootTarget | Maux.Mvvm/Navigation/AppNavigation.cs:220 | a pop-to-root's target is on the navigation stack, and there is one only for a non-null intent |
| Mvvm.NullIntentHasNoTarget | Maux.Mvvm/Navigation/AppNavigation.cs:141 | a null intent reaches no page, in any operation |
| Mvvm.PopTargetIsRevealedPage | Maux.Mvvm/Navigation/AppNavigation.cs:181-187 | a pop delivers the intent to the page the pop reveals, if that is a Maux page |
| Mvvm.PopToRootTargetIsRevealedPage | Maux.Mvvm/Navigation/AppNavigation.cs:219-225 | a pop to root delivers the intent to the root, if that is a Maux page |
| Mvvm.PopModalTargetIsRevealedPage | Maux.Mvvm/Navigation/AppNavigation.cs:194-212 | a modal pop delivers the intent to the modal below the top when more than one remains; otherwise to the top of the navigation stack, or to nobody if that stack is empty |
| Mvvm.AppNavigation.constructor | Maux.Mvvm/Navigation/AppNavigation.cs:109-112 | no navigation is current at first |
| Mvvm.AppNavigation.SetCurrentNavigation | Maux.Mvvm/Navigation/AppNavigation.cs:228-231 | replaces the current navigation; null clears it |
| Mvvm.AppNavigation.ThrowIfNoNavigation | Maux.Mvvm/Navigation/AppNavigation.cs:233-239 | passes exactly when a navigation is current, otherwise an invalid-operation failure |
| Mvvm.AppNavigation.ModalStack | Maux.Mvvm/Navigation/AppNavigation.cs:114-119 | the current navigation's modal stack, or an invalid-operation failure if there is none |
| Mvvm.AppNavigation.NavigationStack | Maux.Mvvm/Navigation/AppNavigation.cs:121-126 | the current navigation's stack, or an invalid-operation failure if there is none |
| Mvvm.AppNavigation.RemovePage | Maux.Mvvm/Navigation/AppNavigation.cs:128-132 | hands the removal to the current navigation, or fails with an invalid operation if there is none |
| Mvvm.AppNavigation.PushAsync | Maux.Mvvm/Navigation/AppNavigation.cs:134-146 | without a navigation: an invalid-operation failure that changes nothing; otherwise the new page gets a non-null intent if it is a Maux page, and is then pushed; only that page's intent and dirty flag can change, and no other page can change |
| Mvvm.AppNavigation.PushModalAsync | Maux.Mvvm/Navigation/AppNavigation.cs:148-160 | as `PushAsync`, onto the modal stack |
| Mvvm.AppNavigation.InsertPageBefore | Maux.Mvvm/Navigation/AppNavigation.cs:162-175 | as `PushAsync`, inserting below the given page |
| Mvvm.AppNavigation.PopAsync | Maux.Mvvm/Navigation/AppNavigation.cs:177-188 | without a navigation: an invalid-operation failure; otherwise the intent reaches `PopTarget` (the Maux page below the top, for a non-null intent), then the pop is requested; only that page's intent and dirty flag can change, and no other page can change |
| Mvvm.AppNavigation.PopModalAsync | Maux.Mvvm/Navigation/AppNavigation.cs:190-213 | as `PopAsync`, with `PopModalTarget` and a modal pop |
| Mvvm.AppNavigation.PopToRootAsync | Maux.Mvvm/Navigation/AppNavigation.cs:215-226 | as `PopAsync`, with `PopToRootTarget` and a pop to root |
| ModelService.ModelServiceBase.constructor | Maux.Sample/Services/ModelServiceBase.cs:15 | the store starts empty |
| ModelService.ModelServiceBase.GetAsync | Maux.Sample/Services/ModelServiceBase.cs:17-21 | the model stored under the id; an id not in the store is a not-found failure |
| ModelService.ModelServiceBase.UpsertAsync | Maux.Sample/Services/ModelServiceBase.cs:34-38 | the model is stored under its id, replacing any earlier one; every other entry is unchanged |
| ModelService.ModelServiceBase.UpsertThenGet | Maux.Sample/Services/ModelServiceBase.cs:17-38 | reading a model back by its id right after upserting it gives that model |
| ModelService.ModelServiceBase.QueryAsync | Maux.Sample/Services/ModelServiceBase.cs:23-32 | exactly the stored models that satisfy the filter (all of them without one), one per entry, in an unspecified order: every result passes the filter, and every stored model that passes it is returned |
| ModelService.QueryNeverLarger | Maux.Sample/Services/ModelServiceBase.cs:27-31 | a query result is never larger than the store |
| ModelService.DistinctKeysBound | Maux.Sample/Services/ModelServiceBase.cs:26 | distinct keys of a set are no more than the set has |
| Sample.SampleElementRoutes | Maux.Sample/MauiProgram.cs:24-29 | the sample composes `AboutPage`, `AgendaPage` and `AgendaPage/AppointmentPage` |
| Sample.RegisterShellContents | Maux.Sample/MauiProgram.cs:25-27 | the two Shell contents map their type names to their pages; nothing reaches the Shell router; the agenda's nested builder has `AgendaPage` as its base |
| Sample.RegisterSampleRoutes | Maux.Sample/MauiProgram.cs:24-29 | the registrations all succeed; the map is exactly the three routes; only `AgendaPage/AppointmentPage` is registered with the Shell router |

## Left out

- Asynchrony. `async`/`await`, `Task.Yield` and the returned tasks are not modelled; every operation runs to completion in sequence.
- The `SemaphoreSlim` that serialises concurrent prepares of one page model (`MauxPageModel.cs` lines 25, 57 and 68). Prepares are modelled one at a time, so overlapping calls are not modelled.
- The host framework:
  - `Shell.Current` and its location, which are parameters here;
  - `GoToAsync`, which is returned as `GoTo` values;
  - `INavigation`, whose requests are recorded; how the host then changes its stacks is not modelled;
  - the DI container, which is a set of registered types;
  - `Routing.RegisterRoute` and its route factory, which are a list of routes.
- `ScopedRouteFactory` and `ShellContentTemplateExtension`: DI scope creation and disposal, and the visual-tree walk. The page a push creates is a parameter.
- `MauxApplication`'s event relay through `WeakEventManager`. The application's events are the sets of subscribed pages; raising an event is the page's handler method.
- `ExecutingThread` (main-thread marshalling) and `MauxIntent`'s throw helpers; only the `"{Intent}"` constant is used.
- `PropertyChanged` notifications raised by the `IsPreparing`/`IsInitializing` setters.
- Mvvm.MauxContentPage.Dispose: .NET multicast delegates allow a handler to be subscribed twice, and `-=` removes one occurrence. The model keeps a set of subscribed pages. The constructor subscribes once, so the two agree for every page the library creates.
- Mvvm.MauxContentPage.OnAppearing: `BindingContext` can hold any object. The model keeps it only when it is a page model (null otherwise), and does not model binding-context inheritance from a parent element.
- Mvvm.MauxPageModel.PrepareAsync: an override's own work is not modelled. Its effect is its outcome (`prepareOutcome`: `Pass` for the base implementation, a failure for an override that throws).
- ModelService.ModelServiceBase.QueryAsync: the order of `Dictionary.Values` is not modelled. The result is stated up to order, with the ghost `keys` naming each result's entry.
- ShellNav.MarkerMeaning: the source calls `StartsWith("//")` (`Maux.Mvvm/Navigation/ShellNavigation.cs` line 86) and `EndsWith("/")` (line 96) without a `StringComparison`, so .NET compares culture-sensitively and skips ignorable code points. For example, `"\u00AD//Root"` starts with `//` there but not in the model. The model's `IsAbsolute` and `WithSeparator` compare ordinally. The `==` at line 80 is ordinal in both.
- Routing.MauxNavigationBuilder.AddContent and Routing.MauxNavigationBuilder.AddRoute: on a failure the source throws before the `navigation` callback runs. The model still returns the nested builder, so callers must not use it after a failed outcome.
- `GetClosestRoute`'s tie-break among equally scoring routes depends on `HashSet` iteration order. The model picks arbitrarily and proves only that the choice is a best-scoring route.
- `ShellNavigation.NavigateAsync` records each batch's `GoToAsync` call instead of awaiting it; a failing router call is not modelled.
- The non-generic builder overloads that take the route from `typeof(TPage).Name` are the `None` case of the route parameter. The view-model overloads are the `Some` case of the view-model parameter.
- The rest of the sample app: view models, the Faker-based services, pages, `App`, and the model records. `ModelBase.Id` is the `idOf` function.
