/** The shapes of the data the remote query returns: one repository, the
    account that owns them, and the response envelope. A field the source
    types as `T | null` is an `Option<T>`. */
module GitHubTypes {

  datatype Option<+T> = None | Some(value: T)

  /** The language the hosting platform assigns to a repository: a display
      name and a display colour. */
  datatype PrimaryLanguage = PrimaryLanguage(name: string, color: string)

  /** One repository as the query returns it; never mutated. */
  datatype Repository = Repository(
    id: string,
    name: string,
    description: Option<string>,
    url: string,
    stargazerCount: nat,
    primaryLanguage: Option<PrimaryLanguage>,
    updatedAt: string,
    forkCount: nat,
    isPrivate: bool)

  datatype PageInfo = PageInfo(hasNextPage: bool, endCursor: string)

  /** The first page of an account's repositories. `nodes` is optional
      because the result processing guards it with `|| []`. */
  datatype RepositoryConnection = RepositoryConnection(
    nodes: Option<seq<Repository>>,
    totalCount: nat,
    pageInfo: PageInfo)

  datatype User = User(
    id: string,
    login: string,
    name: Option<string>,
    avatarUrl: string,
    repositories: RepositoryConnection)

  /** The response body: `user` is null when no account has that name. */
  datatype SearchResponse = SearchResponse(user: Option<User>)
}
