/** The link builder: Slack links for users, projects and folders, built
    from the ids the aggregation loop remembered. */
module Links {
  import opened Maybe
  import opened Assoc
  import opened Activity
  import opened Blocks

  /** The ids a (user, project) pair needs for its links are known. */
  ghost predicate HasIds(t: Tally, user: string, project: string)
  {
    Get(t.userIds, user).Some? && Get(t.projectIds, project).Some?
  }

  /** The user's profile link, carrying the id stored for that name. */
  function UserLink(t: Tally, user: string): (l: Link)
    requires Get(t.userIds, user).Some?
    ensures l.Profile? && l.name == user && (user, l.userId) in t.userIds
  {
    Profile(Get(t.userIds, user).value, user)
  }

  /** The project's Synapse link, carrying the id stored for that name. */
  function ProjectLink(t: Tally, project: string): (l: Link)
    requires Get(t.projectIds, project).Some?
    ensures l.Synapse? && l.name == project && (project, l.synId) in t.projectIds
  {
    Synapse(Get(t.projectIds, project).value, project)
  }

  /** A named folder, linked when `folder_ids` has its id. */
  function FolderRefOf(t: Tally, project: string, folder: string): (r: FolderRef)
    ensures r.Linked? <==> (project, folder) in Keys(t.folderIds)
    ensures r.Linked? ==> r.link == Synapse(Get(t.folderIds, (project, folder)).value, folder)
    ensures r.Unlinked? ==> r.name == folder
  {
    match Get(t.folderIds, (project, folder))
    case Some(id) => Linked(Synapse(id, folder))
    case None => Unlinked(folder)
  }
}
