/**
 * The state behind the "create a new repository" dialog: the form record
 * `{repoName, groupName, isPublic}`, the selected git group and the preview
 * URL of the repository, with one method per event handler. Each handler
 * replaces the form record by a copy with one field changed, as the
 * component's `setCreateRepositoryInput({...createRepositoryInput, f: v})`
 * calls do.
 */
module GitCreateRepo {
  import opened Wrappers
  import RepoName

  /** A group (or namespace) of the git provider; only its name is read here. */
  datatype GitGroup = GitGroup(name: string)

  /**
   * The git organisation the dialog creates the repository in. Groups are
   * queried, and the group selector shown, only when the organisation uses
   * grouping for repositories.
   */
  datatype GitOrganization = GitOrganization(id: string, provider: string, useGroupingForRepositories: bool)

  /** The kind of owner the new repository gets; the dialog always uses `Organization`. */
  datatype GitOrganizationType = Organization

  /** The form record. */
  datatype CreateRepositoryInput = CreateRepositoryInput(repoName: string, groupName: string, isPublic: bool)

  /** What the dialog hands to `onCreateGitRepository`. */
  datatype GitRepositoryCreatedData = GitRepositoryCreatedData(
    gitOrganizationId: string,
    gitOrganizationType: GitOrganizationType,
    gitProvider: string,
    name: string,
    groupName: string,
    isPublic: bool,
    gitRepositoryUrl: string)

  /**
   * The group list the dialog sees: the query's answer (`None` while it has
   * not answered), or `None` when the query is skipped because the
   * organisation does not use grouping.
   */
  function GitGroups(organization: GitOrganization, answer: Option<seq<GitGroup>>): Option<seq<GitGroup>> {
    if organization.useGroupingForRepositories then answer else None
  }

  /** The form's initial record. */
  const InitialInput := CreateRepositoryInput("", "", false)

  class CreateRepoForm {
    const organization: GitOrganization
    var input: CreateRepositoryInput
    var repositoryGroup: Option<GitGroup>
    var gitRepositoryUrl: string

    /**
     * The form's invariant: the stored name is always one the sanitiser can
     * produce, while a group is selected the record carries its name, and
     * without grouping no group is ever selected and the group name stays empty.
     */
    ghost predicate Valid()
      reads this
    {
      && RepoName.IsSanitized(input.repoName)
      && (repositoryGroup.Some? ==> input.groupName == repositoryGroup.value.name)
      && (!organization.useGroupingForRepositories ==> repositoryGroup.None? && input.groupName == "")
    }

    /** The state when the dialog opens: empty name and group, private, no group selected, no URL. */
    constructor (organization: GitOrganization)
      ensures Valid()
      ensures this.organization == organization
      ensures input == InitialInput
      ensures repositoryGroup == None && gitRepositoryUrl == ""
    {
      this.organization := organization;
      input := InitialInput;
      repositoryGroup := None;
      gitRepositoryUrl := "";
    }

    /**
     * The effect that runs whenever the group list may have changed:
     * `answer` is what the groups query has returned so far. When no group
     * is selected yet and a non-empty list is seen, select its first group
     * and copy that group's name into the record. Otherwise nothing changes.
     */
    method SelectDefaultGroup(answer: Option<seq<GitGroup>>)
      requires Valid()
      modifies this
      ensures Valid()
      ensures var gitGroups := GitGroups(organization, answer);
        old(repositoryGroup).None? && gitGroups.Some? && |gitGroups.value| > 0 ==>
        && repositoryGroup == Some(gitGroups.value[0])
        && input == old(input).(groupName := gitGroups.value[0].name)
      ensures var gitGroups := GitGroups(organization, answer);
        !(old(repositoryGroup).None? && gitGroups.Some? && |gitGroups.value| > 0) ==>
        repositoryGroup == old(repositoryGroup) && input == old(input)
      ensures gitRepositoryUrl == old(gitRepositoryUrl)
    {
      var gitGroups := GitGroups(organization, answer);
      if repositoryGroup.None? && gitGroups.Some? && |gitGroups.value| > 0 {
        repositoryGroup := Some(gitGroups.value[0]);
        input := input.(groupName := gitGroups.value[0].name);
      }
    }

    /**
     * The user picks a group in the selector, which is shown only when the
     * organisation uses grouping: it becomes the selected group and its name
     * the record's group name.
     */
    method SelectGroup(gitGroup: GitGroup)
      requires Valid()
      requires organization.useGroupingForRepositories
      modifies this
      ensures Valid()
      ensures repositoryGroup == Some(gitGroup)
      ensures input.groupName == gitGroup.name
      ensures input.repoName == old(input.repoName) && input.isPublic == old(input.isPublic)
      ensures gitRepositoryUrl == old(gitRepositoryUrl)
    {
      repositoryGroup := Some(gitGroup);
      input := input.(groupName := gitGroup.name);
    }

    /**
     * The user edits the name: the record keeps the sanitised text, and the
     * preview URL is recomputed from it and the current group name.
     * `repositoryUrlOf` stands for the URL that `getGitRepositoryDetails`
     * builds from the organisation, the repository name and the group name.
     */
    method ChangeName(value: string, repositoryUrlOf: (GitOrganization, string, string) -> string)
      requires Valid()
      modifies this
      ensures Valid()
      ensures input.repoName == RepoName.Sanitize(value)
      ensures input.groupName == old(input.groupName) && input.isPublic == old(input.isPublic)
      ensures gitRepositoryUrl == repositoryUrlOf(organization, input.repoName, input.groupName)
      ensures repositoryGroup == old(repositoryGroup)
    {
      var processedName := RepoName.Sanitize(value);
      RepoName.SanitizeAllowed(value);
      RepoName.SanitizeNoDoubleDash(value);
      input := input.(repoName := processedName);
      gitRepositoryUrl := repositoryUrlOf(organization, processedName, input.groupName);
    }

    /** The "Public Repo" toggle: only the visibility flag changes. */
    method TogglePublic(checked: bool)
      requires Valid()
      modifies this
      ensures Valid()
      ensures input.isPublic == checked
      ensures input.repoName == old(input.repoName) && input.groupName == old(input.groupName)
      ensures repositoryGroup == old(repositoryGroup) && gitRepositoryUrl == old(gitRepositoryUrl)
    {
      input := input.(isPublic := checked);
    }

    /**
     * The "Create new repository" button: the payload is read off the
     * current state, so the name sent is always a sanitised one.
     */
    method Creation() returns (data: GitRepositoryCreatedData)
      requires Valid()
      ensures data.gitOrganizationId == organization.id && data.gitProvider == organization.provider
      ensures data.gitOrganizationType == Organization
      ensures data.name == input.repoName && data.groupName == input.groupName && data.isPublic == input.isPublic
      ensures data.gitRepositoryUrl == gitRepositoryUrl
      ensures RepoName.IsSanitized(data.name)
    {
      data := GitRepositoryCreatedData(
        organization.id, Organization, organization.provider,
        input.repoName, input.groupName, input.isPublic, gitRepositoryUrl);
    }
  }

  /**
   * The default group is picked once: after the effect has run with a
   * non-empty list, running it again with any later list changes nothing,
   * and the first group of the first list stays selected.
   */
  method DefaultGroupPickedOnce(form: CreateRepoForm, first: seq<GitGroup>, later: Option<seq<GitGroup>>)
    requires form.Valid() && form.organization.useGroupingForRepositories
    requires form.repositoryGroup.None? && |first| > 0
    modifies form
    ensures form.Valid()
    ensures form.repositoryGroup == Some(first[0])
    ensures form.input == old(form.input).(groupName := first[0].name)
    ensures form.gitRepositoryUrl == old(form.gitRepositoryUrl)
  {
    form.SelectDefaultGroup(Some(first));
    form.SelectDefaultGroup(later);
  }
}
