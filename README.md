# CdkRoleChecker in Dafny

This project models `CdkRoleChecker`, a CDK aspect that audits the IAM policies in a construct tree against a small configuration:

- an optional allow-list of actions;
- an optional deny-list of actions;
- a flag that bans wildcard actions.

The aspect's `visit` is called for every construct, possibly more than once for the same construct. For each IAM policy or IAM role it has not seen before, it runs `check` on every policy statement. `check` emits one annotation per violation and returns how many it emitted. When that count is positive, `visit` adds an Info notice ("Role does not conform to requirements").

The project has four modules:

- `Patterns` (`patterns.dfy`) covers action names and patterns.
  - `Matches` stands in for the `minimatch` calls and does trailing-star matching.
  - `MatchesIsGlob` proves that, on patterns whose only `*` is the last character, this agrees with the general reading in which `*` matches any run of characters.
  - The two syntactic tests the checker uses are proved exact against their semantic meaning:
    - the scope test for wildcards under an allow-list (line 132);
    - the two-way test under a deny-list (line 144).
- `Rules` (`rules.dfy`) covers `check` as pure functions.
  - There is one function per pass: `BanPass`, `MalformedPass`, `AllowPass` and `DenyPass`.
  - `Violations` is the whole list of annotations `check` emits for one statement, in order.
  - `check`'s return value is the length of that list.
  - Lemmas state what each pass reports and why.
- `Checker` (`checker.dfy`) holds the class `CdkRoleChecker`.
  - It has the configuration and the `visitedNodes` list as fields.
  - The methods `Check`, `Report` and `Visit` have the loops of the source.
  - Each method is proved equal to a specification function in `Rules` or `Checker`.
  - A construct is represented by the `Node` datatype:
    - `PolicyRes` is a construct whose default child is an `AWS::IAM::Policy`;
    - `RoleRes` is one whose default child is an `AWS::IAM::Role`, with its inline policies;
    - `Other` is anything else.
- `Scenarios` (`scenarios.dfy`) restates the cases of `cdk-role-checker/test/cdk-role-checker.test.ts`. Each builds a role with one inline policy, checks it, and counts the Error annotations left on the role.

Only `lib/index.ts` under `cdk-role-checker/` is modelled. The top-level `lib/index.ts` is an older draft and is not part of this model.

The malformed-wildcard pass (lines 112-118) is modelled as the code is written. The comment on cdk-role-checker/lib/index.ts:112-113 says the pass enforces well-formed wildcards, with the `*` only at the end. In the code, however, the arrow function passed to `some` has a braced body and no `return`. It therefore yields `undefined` for every action, and the Warning is never emitted. `MalformedPassNeverFires` and `MalformedPassMissesMidStar` state this. The rest of the model, including every `check` count, follows the code.

## Model

| member | source | states |
|---|---|---|
| Patterns.MatchesIsGlob | cdk-role-checker/lib/index.ts:123 | On a pattern whose only `*` is the last character, the trailing-star test used for `minimatch` is the same as the general wildcard semantics (each `*` matches any run of characters). |
| Patterns.CoversIffSubsumes | cdk-role-checker/lib/index.ts:128-132 | For two wildcards, matching the inner one cut before its `*` against the outer one holds exactly when every concrete action the inner grants is also granted by the outer; both directions. |
| Patterns.CoversItself | cdk-role-checker/lib/index.ts:132 | A wildcard passes the scope test against itself. On the allow-list entries the model admits (never the bare `*`), the literal `includes` test beside the scope test therefore adds nothing. For the bare `*` it would not hold in the source, since `minimatch('', '*')` is false there. |
| Patterns.Matches | cdk-role-checker/lib/index.ts:123 | The `minimatch` calls of lines 123, 132 and 144. Its meaning is stated by `Patterns.MatchesIsGlob`: the general wildcard semantics on the names the model admits. |
| Patterns.Covers | cdk-role-checker/lib/index.ts:132 | The scope test for wildcards under an allow-list. Its meaning is stated by `Patterns.CoversIffSubsumes` and `Patterns.CoversItself`. |
| Patterns.BidirectionalMatchIffOverlap | cdk-role-checker/lib/index.ts:144 | The deny-list test (the pattern matches the action, or the action is a wildcard that matches the pattern) holds exactly when the two grant a common action name; both directions. It covers actions whose only `*` is the last character, and actions with a `*` in the middle that do not end in `*`. Such an action is matched as a literal name, since the glob library reads its `*` as an ordinary character. |
| Patterns.MidStarMatchedLiterally | cdk-role-checker/lib/index.ts:144 | `s3:Get*Object` is hit by the denied pattern `s3:Get*`, and the two share an action name: the action itself. |
| Rules.Filter | cdk-role-checker/lib/index.ts:105 | `Array.prototype.filter`: the result keeps exactly the occurrences of the elements that satisfy the predicate (as a multiset and by membership) and is no longer than the input. `Rules.FilterAppend` states that it keeps their order. |
| Rules.FilterAppend | cdk-role-checker/lib/index.ts:105 | Filtering distributes over concatenation, so the kept elements stay in input order. |
| Rules.BanEach | cdk-role-checker/lib/index.ts:106-109 | One WildcardBanned Error per given wildcard, each naming one action, and the named actions are the wildcards in order. |
| Rules.BanPass | cdk-role-checker/lib/index.ts:103-110 | With bans on, each action ending in `*` is named by exactly as many WildcardBanned Errors as it occurs. No other action is named. With bans off, nothing is emitted. |
| Rules.NoWildcardNoBanError | cdk-role-checker/lib/index.ts:103-110 | A statement without a trailing-star action draws no ban Error, whether bans are on or off. |
| Rules.MalformedCallback | cdk-role-checker/lib/index.ts:115 | The arrow function given to `some`, which returns `undefined` for every action. `Rules.MalformedPassNeverFires` states the consequence. |
| Rules.MalformedPass | cdk-role-checker/lib/index.ts:115-118 | The malformed-wildcard pass as written. Its meaning is stated by `Rules.MalformedPassNeverFires` and `Rules.MalformedPassMissesMidStar`. |
| Rules.MalformedPassNeverFires | cdk-role-checker/lib/index.ts:115-118 | The malformed-wildcard Warning is never emitted, because the callback given to `some` returns nothing. |
| Rules.MalformedPassMissesMidStar | cdk-role-checker/lib/index.ts:112-118 | An action with a `*` in the middle, the shape the comment says the pass enforces against, draws no Warning. |
| Rules.AllowVerdict | cdk-role-checker/lib/index.ts:123-137 | The allow-list verdict on one action. Its meaning is stated by `Rules.AllowVerdictMeaning`. |
| Rules.AllowVerdictMeaning | cdk-role-checker/lib/index.ts:122-138 | The allow-list verdict on one action is empty exactly when the allow-list clears it. Otherwise it is one Error of the right kind naming that action. A concrete action is cleared when some entry matches it. A wildcard is cleared when bans are on, or when some wildcard entry grants everything the action grants. |
| Rules.AllowPass | cdk-role-checker/lib/index.ts:120-139 | The allow-list pass emits at most one Error per action. Each Error names one action of the statement and has the kind that action calls for. With bans on, no Error names a wildcard. |
| Rules.AllowPassRejects | cdk-role-checker/lib/index.ts:120-139 | An action of the statement is named by an allow-list Error exactly when the allow-list does not clear it. |
| Rules.AllowPassCount | cdk-role-checker/lib/index.ts:122-139 | An action whose verdict is an Error is named by allow-list Errors exactly as often as it occurs in the statement. Any other action is named by none. |
| Rules.AllowPassNamesEachUnclearedOccurrence | cdk-role-checker/lib/index.ts:122-139 | Each occurrence of an action the allow-list does not clear is named by exactly one allow-list Error. An action it clears, including a wildcard when bans are on, is named by none. |
| Rules.DenyHit | cdk-role-checker/lib/index.ts:144 | The deny-list test on one action. Its meaning is stated by `Patterns.BidirectionalMatchIffOverlap`: the action and the denied pattern grant a common action name. An action with a `*` in the middle is matched as a literal name. |
| Rules.DenyVerdict | cdk-role-checker/lib/index.ts:144-148 | The deny-list verdict on one denied pattern. Its meaning is stated by `Rules.DenyPassReportsHits` and `Rules.DenyPassReportsEveryFiringPattern`. |
| Rules.DenyPass | cdk-role-checker/lib/index.ts:140-150 | The deny-list pass emits at most one Error per denied pattern. Each is an ActionDenied Error naming at least one action. |
| Rules.DenyPassOnePerFiringPattern | cdk-role-checker/lib/index.ts:141-149 | The number of deny Errors equals the number of denied patterns that hit at least one action. |
| Rules.DenyPassReportsHits | cdk-role-checker/lib/index.ts:144-146 | Every deny Error lists exactly the actions that one denied pattern hits, in statement order. |
| Rules.DenyPassReportsEveryFiringPattern | cdk-role-checker/lib/index.ts:141-148 | Every denied pattern that hits some action has an Error listing all the actions it hits. |
| Rules.ListPass | cdk-role-checker/lib/index.ts:120-150 | The choice between the allow-list and deny-list passes. Its meaning is stated by `Rules.AllowListShadowsDenyList` and `Rules.AllowListNamesEachFlaggedOccurrence`. |
| Rules.Violations | cdk-role-checker/lib/index.ts:93-153 | `check` on a Deny statement emits nothing, and every annotation it emits is an Error. |
| Rules.AllowListShadowsDenyList | cdk-role-checker/lib/index.ts:120-150 | When an allow-list is configured, even an empty one, the deny-list does not affect the result. |
| Rules.AllowListNamesOneAction | cdk-role-checker/lib/index.ts:103-139 | Under an allow-list, every annotation names a single action. With bans on, an annotation naming a wildcard is the ban Error. |
| Rules.AllowListNamesEachFlaggedOccurrence | cdk-role-checker/lib/index.ts:96-139 | Under an allow-list, each occurrence in an Allow statement of a flagged action is named by exactly one annotation. An action is flagged when it is a wildcard with bans on, or when the allow-list does not clear it. Unflagged actions, and all actions of a Deny statement, are named by none. |
| Checker.StatementsAnnotations | cdk-role-checker/lib/index.ts:65-69 | The annotations for the statements of one document. Its meaning is stated by `Checker.NoticesCountFailingStatements` and `Checker.DenyStatementsAreSilent`. |
| Checker.NodeAnnotations | cdk-role-checker/lib/index.ts:60-87 | The annotations a first visit adds to a construct. `Checker.CdkRoleChecker.Visit` is proved to add exactly these, and `Checker.NoticesCountFailingInNode` counts their Info notices. |
| Checker.NoticesCountFailingStatements | cdk-role-checker/lib/index.ts:65-69 | The Info notices added for a policy document are exactly one per statement whose `check` count is positive. |
| Checker.NoticesCountFailingPolicies | cdk-role-checker/lib/index.ts:78-86 | Over all inline policies of a role, the Info notices number exactly the failing statements, summed over the policies. |
| Checker.NoticesCountFailingInNode | cdk-role-checker/lib/index.ts:60-87 | A first visit adds one Info notice per failing statement of the node. For a policy, these are the statements of its document. For a role, they are the statements of every inline policy. Any other construct gets none. |
| Checker.DenyStatementsAreSilent | cdk-role-checker/lib/index.ts:96-98 | A policy document of Deny statements draws no annotation at all. |
| Checker.CdkRoleChecker.constructor | cdk-role-checker/lib/index.ts:40-47 | Keeps the allow-list and deny-list as given. An absent `banWildcards` counts as false. Nothing is visited yet. |
| Checker.CdkRoleChecker.Check | cdk-role-checker/lib/index.ts:93-153 | The annotations emitted are `Violations` of the statement, and the returned count is their number. |
| Checker.CdkRoleChecker.ReportWildcards | cdk-role-checker/lib/index.ts:103-110 | The ban loop emits `BanPass` with bans on, and counts it. |
| Checker.CdkRoleChecker.CheckAllowed | cdk-role-checker/lib/index.ts:120-139 | The allow-list loop emits `AllowPass` and counts it. |
| Checker.CdkRoleChecker.CheckDenied | cdk-role-checker/lib/index.ts:140-150 | The deny-list loop emits `DenyPass` and counts it. |
| Checker.CdkRoleChecker.Report | cdk-role-checker/lib/index.ts:65-69 | The statements of one document are checked in order. Each statement's violations are followed by the Info notice when its count is positive. |
| Checker.CdkRoleChecker.Visit | cdk-role-checker/lib/index.ts:48-90 | A construct that is not a policy or role, or whose path was seen before, adds nothing and leaves the visited paths unchanged. Otherwise the path is recorded once and all statements of the node are checked, those of every inline policy of a role in order. The visited paths stay free of duplicates. |
| Checker.RevisitIsSilent | cdk-role-checker/lib/index.ts:60-75 | Visiting the same policy or role twice checks it once: the second visit adds nothing and records nothing. |
| Scenarios.TestRoleErrors | cdk-role-checker/test/cdk-role-checker.test.ts:14-32 | On the test role, the number of Error annotations is the count `check` returns for its one statement. |
| Scenarios.Synth | cdk-role-checker/test/cdk-role-checker.test.ts:39-42 | Building a checker from its properties and visiting the test role yields that role's annotations under the configuration. |
| Scenarios.AllowListWithCleanSet | cdk-role-checker/test/cdk-role-checker.test.ts:34-46 | `test:test` under allow-list `test:test` draws no violation and no Error. |
| Scenarios.AllowListWithWildcard | cdk-role-checker/test/cdk-role-checker.test.ts:48-60 | `test:test` under allow-list `test:*` draws no violation and no Error. |
| Scenarios.AllowListOverscopedSubset | cdk-role-checker/test/cdk-role-checker.test.ts:62-72 | `test:get*` under allow-list `test:getLeft*` draws exactly one WildcardScopeExceeded Error. |
| Scenarios.DenyListSingleItem | cdk-role-checker/test/cdk-role-checker.test.ts:74-85 | `test:test` under deny-list `test:test` draws exactly one ActionDenied Error naming it. |
| Scenarios.DenyListIsSubset | cdk-role-checker/test/cdk-role-checker.test.ts:87-98 | Of three actions, only `test:test` is hit by deny-list `test:test`: one Error naming only it. |
| Scenarios.DenyListWildcardInRole | cdk-role-checker/test/cdk-role-checker.test.ts:100-111 | The action `test:t*` is hit by deny-list `test:test`: one Error. |
| Scenarios.DenyListWildcardInDenyList | cdk-role-checker/test/cdk-role-checker.test.ts:113-124 | `test:test` is hit by deny-list `test:t*`: one Error. |
| Scenarios.DenyListEverythingOk | cdk-role-checker/test/cdk-role-checker.test.ts:128-138 | `test:test` under deny-list `test:getBar` draws nothing. |
| Scenarios.DenyListWithWildcard | cdk-role-checker/test/cdk-role-checker.test.ts:140-152 | `test:test` is hit by deny-list `test:*`: one Error. |
| Scenarios.AllowListCleanWildcardsBanned | cdk-role-checker/test/cdk-role-checker.test.ts:154-165 | `test:test` under allow-list `test:test` with bans on draws nothing. |
| Scenarios.AllowListWildcardsBanned | cdk-role-checker/test/cdk-role-checker.test.ts:167-179 | `test:generate*` with bans on draws exactly one Error: the ban Error, and no scope Error. |

## Left out

- Annotation messages and the annotation sink (`Annotations.of(...).addError/addWarning/addInfo`): a violation keeps its kind, severity and the actions it names, not its message text.
- The construct tree and the aspect machinery: paths, `defaultChild`, `cfnResourceType` and `findChild('Resource')` are abstracted by the `Node` datatype and a path string. Aspect scheduling, token resolution and policy documents that are not plain arrays are not modelled.
- `check`'s `role` argument only chooses where annotations go and feeds a message, so the model drops it.
- `banWildcards` is typed `Boolean` in the source. The model reads it as a primitive `bool`, so a boxed `new Boolean(false)`, which JavaScript treats as truthy, is not modelled.
- Rules.Violations: requires every action of an Allow statement to be plain, and an action ending in `*` to have no other `*`. `Matches` reproduces the glob library only on such names. Actions with glob syntax such as `?`, `[...]`, `{...}`, `!` or `/`, and wildcards with a second `*` such as `s3:*Get*`, are outside the model. The bare `*` and an action with a `*` in the middle that does not end in `*` (such as `s3:Get*Object`) are inside it. Deny statements need nothing.
- Checker.CdkRoleChecker.constructor: requires every allow-list and deny-list entry to be plain, with at most a trailing `*`, not the bare `*`, not empty and not starting with `.`. The glob library's handling of other patterns is not modelled. That includes its refusal to let `*` match the empty string or a name starting with `.`, which matters only for such entries.
- Checker.CdkRoleChecker.Check: carries the same requirements as Rules.Violations on the statement and configuration.
- The top-level `lib/index.ts` and `test/cdk-role-checker.test.ts` (an earlier draft) and `example/lib/example-stack.ts` are not part of this model.
