/** The repository record the GitHub REST API returns, reduced to the fields the UI reads. */
module Types {

  datatype Owner = Owner(login: string, avatarUrl: string)

  datatype Repo = Repo(
    id: int,
    fullName: string,
    description: string,
    stargazersCount: nat,
    forksCount: nat,
    updatedAt: string,
    htmlUrl: string,
    contributorsUrl: string,
    languagesUrl: string,
    owner: Owner)
}
