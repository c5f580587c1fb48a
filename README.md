# Amplication: repository-name sanitiser, create-repository form, find-one args

This project models two small pieces of the Amplication low-code platform in Dafny.

- **The create-repository dialog of the client.** This is `GitCreateRepoDialog`.
  - Module `RepoName` holds the name sanitiser. It makes two global
    replacements. First, every character outside `[a-zA-Z0-9._-]` becomes `-`.
    Then every run of two or more `-` becomes one `-`.
  - The second replacement, `CollapseDashes`, follows the regex engine. It
    scans left to right. Where a greedy match of two or more dashes starts, it
    emits one dash and continues after the match.
  - Idempotence and the other listed properties are proved about this model.
    The model is also proved equal to an independent definition,
    `CollapseRuns`. That definition replaces each maximal run of dashes and
    disallowed characters by a single `-`.
  - Leading and trailing dashes are kept, as in the source.
  - Module `GitCreateRepo` holds the dialog's state as the class
    `CreateRepoForm`. Its fields are the form record `{repoName, groupName,
    isPublic}`, the selected group and the preview URL. It has one method per
    handler.
  - Each method states its whole new state. Each also keeps the invariant
    `Valid()`: the stored name is always a sanitised name, while a group is
    selected the record carries that group's name, and an organisation that
    does not use grouping never gets a group selected or a group name set.
- **The find-one arguments declaration of the data-service generator.** This
  is module `FindOneArgs`.
  - A declaration is a tree. A class has its decorators, its identifier and
    its properties. Each property has an ordered list of tagged annotation
    records.
  - `CreateFindOneArgs` builds the declaration that the generator's test
    expects.
  - `ParseFindOneArgs` is a positional reader of that shape. The two are
    proved inverse.

Two facts of the find-one declaration, as the generator's test fixes them
(packages/data-service-generator/src/server/resource/dto/graphql/find-one/create-find-one.spec.ts:28-37):

- The class name is `createFindOneArgsId(entity.name).name`. That naming
  function is not modelled, so it is a parameter of `CreateFindOneArgs`.
- The `where` property carries four decorators: `ApiProperty`,
  `ValidateNested`, `Type`, `Field`, in that order.

## Model

| member | source | states |
|---|---|---|
| `RepoName.ReplaceDisallowed` | packages/amplication-client/src/Resource/git/dialogs/GitCreateRepo/GitCreateRepoDialog.tsx:94 | The first replacement keeps the length. It keeps every allowed character in place and puts `-` wherever the character is not allowed. |
| `RepoName.CollapseDashes` | packages/amplication-client/src/Resource/git/dialogs/GitCreateRepo/GitCreateRepoDialog.tsx:95 | The second replacement never makes the string longer. |
| `RepoName.Sanitize` | packages/amplication-client/src/Resource/git/dialogs/GitCreateRepo/GitCreateRepoDialog.tsx:93-95 | `processedName`: the two replacements in sequence. Its own contract says only that the name never grows and is empty exactly when the input is; what it computes is pinned by `SanitizeIsCollapseRuns` and the other `Sanitize*` lemmas. |
| `RepoName.SanitizeAllowed` | packages/amplication-client/src/Resource/git/dialogs/GitCreateRepo/GitCreateRepoDialog.tsx:93-95 | Every character of a sanitised name is an ASCII letter, a digit, `.`, `-` or `_`. |
| `RepoName.SanitizeNoDoubleDash` | packages/amplication-client/src/Resource/git/dialogs/GitCreateRepo/GitCreateRepoDialog.tsx:93-95 | A sanitised name never holds two consecutive `-`. |
| `RepoName.SanitizeLength` | packages/amplication-client/src/Resource/git/dialogs/GitCreateRepo/GitCreateRepoDialog.tsx:93-95 | The first step keeps the length. The whole sanitiser never returns a longer name than its input. |
| `RepoName.SanitizeFixedPoint` | packages/amplication-client/src/Resource/git/dialogs/GitCreateRepo/GitCreateRepoDialog.tsx:93-95 | A name comes back unchanged if and only if it has only allowed characters and no `--`. The empty name maps to the empty name. |
| `RepoName.SanitizeIdempotent` | packages/amplication-client/src/Resource/git/dialogs/GitCreateRepo/GitCreateRepoDialog.tsx:93-95 | Sanitising an already-sanitised name returns it unchanged. |
| `RepoName.SanitizeKeepsChars` | packages/amplication-client/src/Resource/git/dialogs/GitCreateRepo/GitCreateRepoDialog.tsx:94-95 | The output's non-dash characters are exactly the input's allowed non-dash characters, in the same order. |
| `RepoName.SanitizeIsCollapseRuns` | packages/amplication-client/src/Resource/git/dialogs/GitCreateRepo/GitCreateRepoDialog.tsx:93-95 | The two replacements together equal one rule: each maximal non-empty run of dashes and disallowed characters becomes a single `-`. |
| `GitCreateRepo.CreateRepoForm.constructor` | packages/amplication-client/src/Resource/git/dialogs/GitCreateRepo/GitCreateRepoDialog.tsx:48-64 | The dialog opens with an empty name, an empty group name, a private repository, no selected group and an empty URL. It then satisfies the invariant. |
| `GitCreateRepo.CreateRepoForm.SelectDefaultGroup` | packages/amplication-client/src/Resource/git/dialogs/GitCreateRepo/GitCreateRepoDialog.tsx:65-72 | The effect fires only if no group is selected, the organisation uses grouping, and the query's list has arrived and is non-empty. It then selects `groups[0]` and sets only `groupName` to that group's name. Otherwise nothing changes. |
| `GitCreateRepo.DefaultGroupPickedOnce` | packages/amplication-client/src/Resource/git/dialogs/GitCreateRepo/GitCreateRepoDialog.tsx:65-72 | After the effect has fired once, a later run with any list keeps the first list's first group. |
| `GitCreateRepo.CreateRepoForm.SelectGroup` | packages/amplication-client/src/Resource/git/dialogs/GitCreateRepo/GitCreateRepoDialog.tsx:80-89 | Choosing a group (possible only when the organisation uses grouping, since only then is the selector shown) selects it and sets `groupName` to its name. `repoName`, `isPublic` and the URL stay as they were. |
| `GitCreateRepo.CreateRepoForm.ChangeName` | packages/amplication-client/src/Resource/git/dialogs/GitCreateRepo/GitCreateRepoDialog.tsx:91-108 | Typing sets `repoName` to the sanitised text. It leaves `groupName`, `isPublic` and the selected group alone. The URL is recomputed from the organisation, the new name and the current group name. |
| `GitCreateRepo.CreateRepoForm.TogglePublic` | packages/amplication-client/src/Resource/git/dialogs/GitCreateRepo/GitCreateRepoDialog.tsx:150-160 | The toggle sets `isPublic` to the checked value. Nothing else changes. |
| `GitCreateRepo.CreateRepoForm.Creation` | packages/amplication-client/src/Resource/git/dialogs/GitCreateRepo/GitCreateRepoDialog.tsx:110-119 | The payload carries the organisation's id and provider, the `Organization` type, the record's three fields and the URL. The name sent is always a sanitised name. |
| `FindOneArgs.FindOneArgsDeclaration` | packages/data-service-generator/src/server/resource/dto/graphql/find-one/create-find-one.spec.ts:28-38 | The expected tree for a class name and a where type: named by the first, one property of the second type. Its full shape is pinned by `ParseBuilt` and `ParsedIsBuilt`. |
| `FindOneArgs.CreateFindOneArgs` | packages/data-service-generator/src/server/resource/dto/graphql/find-one/create-find-one.spec.ts:26-38 | The emitted class carries exactly `@ArgsType()`. It is named `createFindOneArgsId(entity.name)`. It has exactly one property, `where`, declared with `!` and typed as the where-unique input's id name. |
| `FindOneArgs.WhereReferencesOnlyInput` | packages/data-service-generator/src/server/resource/dto/graphql/find-one/create-find-one.spec.ts:32-37 | The property's type and the types in `ApiProperty.type`, `@Type` and `@Field` are all the where-unique input's id name, and no other type is mentioned. |
| `FindOneArgs.WhereDecoratorOrder` | packages/data-service-generator/src/server/resource/dto/graphql/find-one/create-find-one.spec.ts:30-36 | The property's decorators are exactly `ApiProperty`, `ValidateNested`, `Type`, `Field`, in that order. |
| `FindOneArgs.WhereRequiredAndNonNullable` | packages/data-service-generator/src/server/resource/dto/graphql/find-one/create-find-one.spec.ts:30-36 | Every `ApiProperty` on the property has `required: true`. Every `Field` has `nullable: false`. |
| `FindOneArgs.CreateFindOneArgsDependsOnNames` | packages/data-service-generator/src/server/resource/dto/graphql/find-one/create-find-one.spec.ts:20-29 | The declaration depends only on the entity's name and the given where-unique input's id. Its type reference is the input handed in. |
| `FindOneArgs.ParseBuilt` | packages/data-service-generator/src/server/resource/dto/graphql/find-one/create-find-one.spec.ts:28-38 | Reading a built declaration positionally recovers its class name and its where type. |
| `FindOneArgs.ParsedIsBuilt` | packages/data-service-generator/src/server/resource/dto/graphql/find-one/create-find-one.spec.ts:28-38 | Any declaration the positional reader accepts is exactly the one the builder emits for the names it reads. The shape is fully determined. |

## Left out

- Rendering is not modelled: JSX, CSS class names, design-system components and the error label (`formatError`). These are UI.
- The group query (`useQuery(GET_GROUPS)`) is network I/O. Its answer is the `Option<seq<GitGroup>>` argument of `SelectDefaultGroup`, where `None` stands for a query that has not answered. `GitGroups` turns it into `None` when the organisation does not use grouping, since the query is then skipped.
- `getGitRepositoryDetails` is not part of this model. `ChangeName` takes the URL it would build as a function parameter.
- `onCreateGitRepository`'s side effects are not modelled. `Creation` only produces the payload record.
- React's scheduling is not modelled. Each handler is one atomic step on the current state: there are no stale closures and no batching of `setState` calls.
- `GitGroup`, `EnumGitOrganizationType` and the organisation record are defined in files that are not part of this model. The model keeps only the members the dialog reads: a group's name; the organisation's id, provider and `useGroupingForRepositories` flag; and the `Organization` value. The dialog hands the whole organisation to `getGitRepositoryDetails`; in the model that function sees this three-field record.
- `print` is not modelled. The emitted text's whitespace and formatting are left out; the model keeps the declaration tree and the decorator order.
- `createEntityInputFiles`, `createWhereUniqueInput` and `createFindOneArgsId` are not part of this model. The where-unique input is an argument and the naming function a parameter.
- The entity's fields and permissions are left out. The expected declaration does not depend on them.
- A missing where-unique input and a malformed entity are not modelled. Nothing in the code shown raises these failures.
- `WhereBlueprintRelationUniqueInput.ts` is not modelled. It is a bare input-type declaration with no behaviour.
- UTF-16 surrogate pairs are treated as ordinary characters. A disallowed pair becomes two dashes, which then collapse to one, so the output is the same.
