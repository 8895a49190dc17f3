/** The structure of the Slack message the renderer builds. Markdown
    decoration and emoji are left out; what remains is which link is used
    for what, the numbers shown and the words chosen. */
module Blocks {
  import opened Maybe

  /** A Slack link `<url|text>`. A user links to `Profile:<id>`; a project
      or folder links to `Synapse:syn<id>`, the `syn` prefix being added to
      the numeric id. */
  datatype Link =
    | Profile(userId: int, name: string)
    | Synapse(synId: int, name: string)

  /** A folder shown by name: linked when its id is known, plain otherwise. */
  datatype FolderRef = Linked(link: Link) | Unlinked(name: string)

  /** Where a standard-layout activity happened. */
  datatype Location =
    | ProjectRoot(project: Link)
    | InFolder(folder: FolderRef, project: Link)

  /** Where a condensed-layout folder count is: "N in root" or "N in <folder>". */
  datatype Place = Root | Folder(folder: FolderRef)

  datatype Block =
      /** Summary: items, users, projects; `highActivity` holds the number
          of combinations when the condensed layout is used. */
    | Header(totalFiles: nat, uniqueUsers: nat, uniqueProjects: nat, highActivity: Option<nat>)
    | Divider
      /** Standard layout: "<user> <verb> *<count> <item word>* in <location>". */
    | Activity(user: Link, verb: string, count: nat, itemWord: string, location: Location)
      /** Condensed layout: "<user> <verb count, ...> items: <folders>
          (+N more folders) of <project>". */
    | PairSummary(user: Link, changes: seq<(string, nat)>, folders: seq<(Place, nat)>,
                  moreFolders: Option<nat>, project: Link)
      /** Condensed layout: "<remaining> more user-project combinations...". */
    | MorePairs(remaining: nat)

  const CreateChangeType: string := "CREATE"
  const CreatedVerb: string := "created"
  const ModifiedVerb: string := "modified"

  /** Any change type other than CREATE reads as "modified". */
  function Verb(changeType: string): (v: string)
    ensures v == CreatedVerb <==> changeType == CreateChangeType
    ensures v == CreatedVerb || v == ModifiedVerb
  {
    if changeType == CreateChangeType then CreatedVerb else ModifiedVerb
  }

  /** "item" for exactly one, "items" otherwise. */
  function ItemWord(count: nat): (w: string)
    ensures w == "item" <==> count == 1
    ensures w == "item" || w == "items"
  {
    if count != 1 then "items" else "item"
  }
}
