/** "owner/repo" configuration entries, as both reconcilers split them
    (internal/reconciler/reconciler.go). */
module Repos {
  import opened Options

  function FirstSlash(s: string): (i: nat)
    ensures i <= |s| && (i < |s| ==> s[i] == '/')
    ensures forall j :: 0 <= j < i ==> s[j] != '/'
  {
    if s == "" || s[0] == '/' then 0 else FirstSlash(s[1..]) + 1
  }

  datatype Repo = Repo(owner: string, name: string)

  /** Cut at the first slash; both parts must be non-empty. */
  function SplitRepo(full: string): Option<Repo> {
    var i := FirstSlash(full);
    if i == |full| || i == 0 || i == |full| - 1 then None else Some(Repo(full[..i], full[i + 1..]))
  }

  /** An entry is accepted exactly if it is an owner without slashes and a name, joined by a slash. */
  lemma SplitRepoExact(full: string)
    ensures var r := SplitRepo(full);
            && (r.Some? ==> r.value.owner != "" && r.value.name != "" && '/' !in r.value.owner
                            && full == r.value.owner + "/" + r.value.name)
            && (r.None? ==> forall owner, name :: owner != "" && name != "" && '/' !in owner ==> full != owner + "/" + name)
  {
    var i := FirstSlash(full);
    forall owner: string, name: string | owner != "" && name != "" && '/' !in owner && full == owner + "/" + name
      ensures SplitRepo(full).Some?
    {
      assert full[|owner|] == '/';
      assert forall j :: 0 <= j < |owner| ==> full[j] == owner[j] && full[j] != '/';
    }
  }
}
