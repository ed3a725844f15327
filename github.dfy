/** The GitHub REST client of the back end, as an oracle. Each endpoint maps
    a username to a value or to one of the two failures the client reports:
    "GitHub user not found" (HTTP 404 on the profile endpoint) or any other
    failure (network, other statuses). */
module GitHub {
  import opened Http

  /** The fields of `GET /users/:u` that the user cache stores. Timestamps are
      the instants `created_at`/`updated_at` denote, already parsed. */
  datatype Profile = Profile(
    login: string,
    avatarUrl: string,
    name: Option<string>,
    company: Option<string>,
    blog: Option<string>,
    location: Option<string>,
    email: Option<string>,
    bio: Option<string>,
    twitterUsername: Option<string>,
    publicRepos: int,
    publicGists: int,
    followers: int,
    following: int,
    createdAt: int,
    updatedAt: int)

  datatype Fetch<+T> = Found(value: T) | Missing | Transport(detail: string)

  /** The three endpoints the user controller calls. */
  datatype Client = Client(
    user: string -> Fetch<Profile>,
    followers: string -> Fetch<seq<string>>,
    following: string -> Fetch<seq<string>>)
}
