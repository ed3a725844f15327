/** The front end's top-level component: its state fields and the four
    handlers that move between the search box, the repository list, a
    repository's details and the followers list. The GitHub API calls are
    oracles that either deliver a value or throw. */
module ExplorerApp {
  import opened Http

  datatype View = Search | Repos | RepoDetails | FollowersView

  /** The profile fields the front end reads. */
  datatype GhUser = GhUser(
    login: string,
    avatarUrl: string,
    name: Option<string>,
    bio: Option<string>,
    followers: int,
    following: int,
    publicRepos: int)

  datatype Repository = Repository(name: string, description: string, language: string, verified: bool, stars: int)

  /** A repository extended with the owner's avatar and its categories. */
  datatype DetailedRepository = DetailedRepository(repo: Repository, avatarUrl: string, categories: seq<string>)

  /** An awaited API call: its value, or what it threw (the message of an
      Error, None for any other thrown value). */
  datatype Outcome<+T> = Loaded(value: T) | Thrown(message: Option<string>)

  /** The search and its two requests (user and repositories), taken
      together as one outcome. */
  type SearchApi = string -> Outcome<(GhUser, seq<Repository>)>
  type FollowersApi = string -> Outcome<seq<GhUser>>

  /** The component's state fields, as a value. */
  datatype AppState = AppState(
    userData: Option<GhUser>,
    repositories: seq<Repository>,
    followers: seq<GhUser>,
    view: View,
    selectedRepo: Option<DetailedRepository>,
    error: string,
    loading: bool)

  const Initial: AppState := AppState(None, [], [], Search, None, "", false)

  const Categories: seq<string> := ["Code review", "IDEs", "Free"]

  function ErrorText(message: Option<string>, fallback: string): string {
    match message
    case Some(m) => m
    case None => fallback
  }

  /** `handleSearch` as a transition. */
  function SearchDone(s: AppState, username: string, api: SearchApi): AppState {
    var started := s.(loading := true, error := "");
    match api(username)
    case Loaded((user, repos)) =>
      started.(userData := Some(user), repositories := repos, view := Repos, loading := false)
    case Thrown(m) =>
      started.(error := ErrorText(m, "An error occurred"), loading := false)
  }

  /** `handleViewFollowers` as a transition. */
  function FollowersDone(s: AppState, api: FollowersApi): AppState {
    if s.userData.None? then s
    else
      match api(s.userData.value.login)
      case Loaded(list) => s.(followers := list, view := FollowersView, loading := false)
      case Thrown(m) => s.(error := ErrorText(m, "Failed to fetch followers"), loading := false)
  }

  /** `handleRepositoryClick` as a transition. */
  function RepositoryClicked(s: AppState, repo: Repository): AppState {
    var avatar := if s.userData.Some? then s.userData.value.avatarUrl else "";
    s.(selectedRepo := Some(DetailedRepository(repo, avatar, Categories)), view := RepoDetails)
  }

  /** `handleBack` as a transition. */
  function Back(s: AppState): AppState {
    match s.view
    case FollowersView => s.(view := Repos, selectedRepo := None)
    case RepoDetails => s.(view := Repos, selectedRepo := None)
    case Repos => s.(view := Search, userData := None, repositories := [])
    case Search => s
  }

  class App {
    var userData: Option<GhUser>
    var repositories: seq<Repository>
    var followers: seq<GhUser>
    var view: View
    var selectedRepo: Option<DetailedRepository>
    var error: string
    var loading: bool

    function State(): AppState
      reads this
    {
      AppState(userData, repositories, followers, view, selectedRepo, error, loading)
    }

    constructor ()
      ensures State() == Initial
    {
      userData, repositories, followers := None, [], [];
      view, selectedRepo, error, loading := Search, None, "", false;
    }

    method HandleSearch(username: string, api: SearchApi)
      modifies this
      ensures State() == SearchDone(old(State()), username, api)
    {
      loading := true;
      error := "";
      match api(username) {
        case Loaded((user, repos)) =>
          userData := Some(user);
          repositories := repos;
          view := Repos;
        case Thrown(m) =>
          error := ErrorText(m, "An error occurred");
      }
      loading := false;
    }

    method HandleViewFollowers(api: FollowersApi)
      modifies this
      ensures State() == FollowersDone(old(State()), api)
    {
      if userData.None? {
        return;
      }
      loading := true;
      match api(userData.value.login) {
        case Loaded(list) =>
          followers := list;
          view := FollowersView;
        case Thrown(m) =>
          error := ErrorText(m, "Failed to fetch followers");
      }
      loading := false;
    }

    method HandleRepositoryClick(repo: Repository)
      modifies this
      ensures State() == RepositoryClicked(old(State()), repo)
    {
      var avatar := if userData.Some? then userData.value.avatarUrl else "";
      selectedRepo := Some(DetailedRepository(repo, avatar, Categories));
      view := RepoDetails;
    }

    method HandleBack()
      modifies this
      ensures State() == Back(old(State()))
    {
      match view {
        case FollowersView =>
          view := Repos;
          selectedRepo := None;
        case RepoDetails =>
          view := Repos;
          selectedRepo := None;
        case Repos =>
          view := Search;
          userData := None;
          repositories := [];
        case Search =>
      }
    }
  }

  /** Back from the followers list or a repository's details returns to the
      repository list, drops the selected repository and keeps the user and
      the repositories. */
  lemma BackToRepos(s: AppState)
    requires s.view == FollowersView || s.view == RepoDetails
    ensures var b := Back(s);
      && b.view == Repos && b.selectedRepo == None
      && b.userData == s.userData && b.repositories == s.repositories
      && b.(view := s.view, selectedRepo := s.selectedRepo) == s
  {
  }

  /** Back from the repository list returns to the search box and forgets
      the user and the repositories; back from the search box does nothing. */
  lemma BackToSearch(s: AppState)
    ensures s.view == Repos ==> Back(s) == s.(view := Search, userData := None, repositories := [])
    ensures s.view == Search ==> Back(s) == s
  {
  }

  /** Two steps back always reach the search box, with the user forgotten
      unless the start was the search box itself. */
  lemma BackTwiceReachesSearch(s: AppState)
    ensures Back(Back(s)).view == Search
    ensures s.view != Search ==> Back(Back(s)).userData == None
  {
  }

  /** A search clears the error first and always ends with loading off; on
      success it shows the user's repositories, on failure it keeps the view
      and reports the error. */
  lemma SearchOutcome(s: AppState, username: string, api: SearchApi)
    ensures var r := SearchDone(s, username, api);
      && !r.loading
      && (api(username).Loaded? ==>
            r.view == Repos && r.userData == Some(api(username).value.0)
            && r.repositories == api(username).value.1 && r.error == "")
      && (api(username).Thrown? ==>
            r.view == s.view && r.userData == s.userData && r.repositories == s.repositories
            && r.error == ErrorText(api(username).message, "An error occurred"))
      && r.followers == s.followers && r.selectedRepo == s.selectedRepo
  {
  }

  /** Without a user, viewing followers does nothing and calls no API; with
      one, a successful call shows the list for that user's login, and a
      failed one keeps the view and reports the error. Unlike a search, this
      handler never clears the error, so an earlier message stays on screen
      above the followers list. */
  lemma FollowersOutcome(s: AppState, api: FollowersApi, other: FollowersApi)
    ensures s.userData.None? ==> FollowersDone(s, api) == s && FollowersDone(s, other) == s
    ensures s.userData.Some? && api(s.userData.value.login).Loaded? ==>
      var r := FollowersDone(s, api);
      && r.view == FollowersView && r.followers == api(s.userData.value.login).value && !r.loading
      && r.error == s.error && r.userData == s.userData
    ensures s.userData.Some? && api(s.userData.value.login).Thrown? ==>
      var r := FollowersDone(s, api);
      && r.view == s.view && r.followers == s.followers && !r.loading
      && r.error == ErrorText(api(s.userData.value.login).message, "Failed to fetch followers")
  {
  }

  /** Selecting a repository shows its details, with the user's avatar (or
      the empty string without a user) and the three fixed categories. */
  lemma RepositoryClickOutcome(s: AppState, repo: Repository)
    ensures var r := RepositoryClicked(s, repo);
      && r.view == RepoDetails
      && r.selectedRepo == Some(DetailedRepository(repo,
           if s.userData.Some? then s.userData.value.avatarUrl else "", Categories))
      && r.(view := s.view, selectedRepo := s.selectedRepo) == s
  {
  }

  // ---------------------------------------------------------------------
  // What the user can reach through the rendered controls.

  /** A user action on a rendered control. */
  datatype Event = SearchFor(username: string) | ViewFollowers | OpenRepository(repo: Repository) | GoBack

  /** The controls `renderContent` shows in each view: the search box in the
      search view; repository, followers and back buttons in the list (shown
      only with a user); back in the details (shown only with a repository);
      a follower's name (which searches) and back in the followers list. */
  predicate Exposes(s: AppState, e: Event) {
    match s.view
    case Search => e.SearchFor?
    case Repos => s.userData.Some? && (e.OpenRepository? || e.ViewFollowers? || e.GoBack?)
    case RepoDetails => s.selectedRepo.Some? && e.GoBack?
    case FollowersView => e.SearchFor? || e.GoBack?
  }

  function Step(s: AppState, e: Event, search: SearchApi, followersApi: FollowersApi): AppState {
    match e
    case SearchFor(u) => SearchDone(s, u, search)
    case ViewFollowers => FollowersDone(s, followersApi)
    case OpenRepository(repo) => RepositoryClicked(s, repo)
    case GoBack => Back(s)
  }

  /** A session: each action on a control that is on screen takes effect;
      an action on a control that is not rendered cannot happen and is
      ignored. */
  function Run(s: AppState, events: seq<Event>, search: SearchApi, followersApi: FollowersApi): AppState
    decreases |events|
  {
    if events == [] then s
    else
      var next := if Exposes(s, events[0]) then Step(s, events[0], search, followersApi) else s;
      Run(next, events[1..], search, followersApi)
  }

  /** Outside the search view there is always a user, and the details view
      always has a repository. */
  ghost predicate Consistent(s: AppState) {
    && (s.view != Search ==> s.userData.Some?)
    && (s.view == RepoDetails ==> s.selectedRepo.Some?)
  }

  /** `renderContent` draws a component: the list needs a user and the
      details need a repository, otherwise the page is blank. */
  predicate Renders(s: AppState) {
    match s.view
    case Search => true
    case Repos => s.userData.Some?
    case RepoDetails => s.selectedRepo.Some?
    case FollowersView => true
  }

  /** Every action offered on screen keeps the state consistent. */
  lemma StepConsistent(s: AppState, e: Event, search: SearchApi, followersApi: FollowersApi)
    requires Consistent(s) && Exposes(s, e)
    ensures Consistent(Step(s, e, search, followersApi))
  {
  }

  /** Any session that starts from the initial state never reaches a blank
      page. */
  lemma {:induction false} RunRenders(s: AppState, events: seq<Event>, search: SearchApi, followersApi: FollowersApi)
    requires Consistent(s)
    ensures Consistent(Run(s, events, search, followersApi))
    ensures Renders(Run(s, events, search, followersApi))
    decreases |events|
  {
    if events != [] {
      if Exposes(s, events[0]) {
        StepConsistent(s, events[0], search, followersApi);
      }
      var next := if Exposes(s, events[0]) then Step(s, events[0], search, followersApi) else s;
      RunRenders(next, events[1..], search, followersApi);
    }
  }

  lemma SessionsRender(events: seq<Event>, search: SearchApi, followersApi: FollowersApi)
    ensures Renders(Run(Initial, events, search, followersApi))
  {
    RunRenders(Initial, events, search, followersApi);
  }
}
