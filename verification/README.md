# Verified model of subgen's core

subgen serves mihomo subscription configs and lets an operator edit them. A config is a list of
proxy-groups that refer to each other, a list of routing rules with nested AND/OR/NOT trees, a
list of rule-providers, a base YAML document and a few profile fields. This project models how
such a config is decoded, validated, saved, read back and shown again, and four further pieces of
the program whose correctness is not plain from their text: the migration runner, the generated
router, the generated required-field decoders and the size formatter.

The modules, in reading order:

- `Wrappers`, `RuleTypes`, `Drafts`: options, the rule type registry, the draft types with their
  local checks and the error sentinels.
- `GroupGraph`, `CyclicGroups`: references between proxy-groups as a graph; the three-colour
  search as a method over a colour array.
- `Checks`, `Validate`: all checks of a config as one flat ordered list, which depends on nothing
  but the config; the validators, which return the first failure of that list.
- `Acceptance`, `Expansion`, `Reorder`: what an accepted config is and what follows from it.
- `Decode`: from the wire shape to a draft.
- `Padding`: what decoding means, as a relation between a draft and its wire shape.
- `Tables`, `RuleRows`, `Store`, `ConfigView`, `Answers`, `RoundTrip`: the stored rows, saving,
  the ordered queries, showing, and the round trip through all of them.
- `Isolation`: one config's save and what the other configs show.
- `Messages`, `ConfigSave`: the texts of refusals; the save handler from the request to the tables.
- `Faults`: which fault is reported, spelled out.
- `Migrations`: several processes that run the migration loop on one database.
- `Router`, `RequiredFields`, `HumanSize`: the generated router, the generated decoders, the size
  formatter.

Specifications and code are kept apart. Validators are proved against a flat list of checks, the
trie walk against a table of 23 routes, the migration loop against a state machine, the save
against a function on tables, the bitset loop against a filter of the field names.

## Where the code differs from what its texts promise

- internal/mihomo/draft.go:3-14 and internal/handlers/config_get/handler.go:77-85 suggest that a
  config reads back with the indices it was saved with. The providers are read in name order
  (internal/repository/routing/rule_providers.go:9-11), so their list and every RULE-SET index may
  be permuted, and an explicit `noResolve: false` is stored as 0 and reads back as absent
  (internal/repository/routing/save_mihomo_config.go:176, internal/repository/routing/rules.go:66-69).
  `RoundTrip.RoundTrip` states what does come back, for every accepted config, and exactly when it
  is what was saved; `RoundTrip.TripsThatChange` gives a config for each deviation.
- The router serves `/admin/api/` as the admin view with an empty argument, although the view
  parameter is non-empty everywhere else: the break at internal/oas/oas_router_gen.go:145 leaves the
  case before line 676 restores the path. `Router.WhereTheyPart` shows that the router and the flat
  table part on this path and on no other, and `Router.ServeHTTP` is specified with this exception.

`humanSize` as a function would index past its four suffixes from 1024 to the fifth on
(internal/handlers/provider_check/handler.go:78). That is no fault of the program: its only callers
pass the size of a probed file, of which at most 32 MiB are read
(internal/service/ruleset/check.go:53-66), and for those `HumanSize.HumanSize` shows plain bytes or
the suffix K or M.

## Model

| member | source | states |
|---|---|---|
| RuleTypes.SpecialTypes | internal/mihomo/routing_rule.go:60-116 | Exactly AND, OR and NOT are logical and exactly RULE-SET takes a provider; the logical types and MATCH are known and never support no-resolve, and none of these roles overlap. |
| RuleTypes.KnownTypes | internal/mihomo/routing_rule.go:7-46 | The 34 known types, by name. |
| RuleTypes.NoResolveTypes | internal/mihomo/routing_rule.go:60-95 | No-resolve is for the five destination address matchers and RULE-SET. |
| Drafts.PolicyKinds | internal/mihomo/policy_ref.go:21-29 | The five built-in policies and two reference kinds, by name. |
| Drafts.GroupTypes | internal/mihomo/proxy_group.go:23-42 | The five group types, by name; all but select and relay take health-check fields, url-test alone a tolerance. |
| GroupGraph.EdgeMeans | internal/mihomo/validate.go:230-238 | A reference counts exactly when it is of the kind group and its index is that of a group of the list. |
| GroupGraph.AcyclicIffRanked | internal/mihomo/validate.go:214-257 | The group references have no non-empty closed walk exactly when every group can be given a number that drops along each reference, for any draft, also with missing or out-of-range indices. |
| GroupGraph.HeightRanking | internal/mihomo/validate.go:214-257 | Such a ranking can be named: the length of the longest reference chain. |
| GroupGraph.ChainsAreShort | internal/mihomo/validate.go:214-257 | Without a cycle no chain of references repeats a group, so none is longer than the list of groups. |
| CyclicGroups.Enter | internal/mihomo/validate.go:227-228 | Painting a white group gray keeps gray groups the current reference path and black groups closed, and strictly lowers the number of white groups. |
| CyclicGroups.BackEdge | internal/mihomo/validate.go:230-243 | A reference to a gray group closes a walk. |
| CyclicGroups.Leave | internal/mihomo/validate.go:245-247 | Painting a group black keeps the invariant, because everything it refers to finished earlier. |
| CyclicGroups.AllFinished | internal/mihomo/validate.go:250-256 | When every group is black in an order in which references lead to earlier ones, there is no cycle. |
| CyclicGroups.Visit | internal/mihomo/validate.go:223-248 | One recursive visit reports only real cycles, otherwise keeps the invariant and finishes its group; the visits and member inspections it makes are paid for by the groups it takes out of the white ones. |
| CyclicGroups.CyclicGroups | internal/mihomo/validate.go:214-257 | Reports a cycle exactly when the in-range reference graph has one; visits each group at most once and inspects at most as many members as there are, and without a cycle exactly once each. |
| Checks.FirstMeans | internal/mihomo/validate.go:31-57 | The reported error is that of a failing check with none before it, and there is none exactly when all checks pass. |
| Validate.RefFirst | internal/mihomo/validate.go:200-212 | A reference is reported as malformed, else as out of range, else not at all, in the order of the list of checks; no index is read that is absent. |
| Validate.GroupDecides | internal/mihomo/validate.go:34-50 | When all groups before it passed, the first failure of a group is the verdict on the whole list, whatever comes after. |
| Validate.CycleDecides | internal/mihomo/validate.go:52-56 | When every group passed, the verdict is the cycle error exactly when there is a cycle. |
| Validate.ValidateProxyGroups | internal/mihomo/validate.go:31-57 | Returns the first failure in (group, check, member) order, a duplicate name at its earliest repetition, the cycle last of all. |
| Validate.NodeFirst | internal/mihomo/validate.go:82-125 | The branches at one rule node return the first failing of its checks. |
| Validate.RuleFirst | internal/mihomo/validate.go:82-135 | The recursive validator returns the first failure of a flat pre-order scan over all nodes of the tree. |
| Validate.RuleDecides | internal/mihomo/validate.go:62-74 | What one more rule adds to the verdict: the first failure of its tree, then whether it is a MATCH that is not last. |
| Validate.ValidateRoutingRules | internal/mihomo/validate.go:62-74 | Returns the first failure over all nodes of all rules in order, with the misplaced MATCH after its own tree. |
| Faults.GroupFault | internal/mihomo/draft.go:129-151 | Which fault of a group is reported, first to last: name, type, members, health-check fields, tolerance. |
| Faults.RefFault | internal/mihomo/validate.go:200-212 | Which fault of a reference is reported: its kind, a missing or stray id, the range. |
| Faults.TypeFault | internal/mihomo/draft.go:67-111 | Which fault of a rule node is reported by its type: unknown, payload, missing provider or value, children, no-resolve. |
| Faults.NodeFault | internal/mihomo/validate.go:82-125 | Which fault is reported by the place of a node: its own, its target, a nested MATCH or no-resolve, the provider range, the arity. |
| Faults.NodeBeforeChildren | internal/mihomo/validate.go:118-134 | A node's own fault comes before those below it, and only logical nodes are looked below. |
| Faults.FirstMember | internal/mihomo/validate.go:45-49 | Of several faulty members the first is reported. |
| Faults.FirstChild | internal/mihomo/validate.go:127-131 | Of several faulty sub-rules the first is reported. |
| Acceptance.AcceptedIffGoodGroups | internal/mihomo/validate.go:31-57 | Groups are accepted exactly when each is well formed with well-formed in-range members, names differ and no cycle exists. |
| Acceptance.AcceptedIffGoodRules | internal/mihomo/validate.go:62-135 | Rules are accepted exactly when every node at every depth is good (target on the root only, no nested MATCH or true no-resolve, indices in range, NOT with one child, AND and OR with two or more, children on logical nodes only) and MATCH is only last. |
| Acceptance.AcceptanceIsMonotone | internal/mihomo/validate.go:62-74 | Accepted rules stay accepted when groups or providers are added. |
| Acceptance.FewJunctions | internal/mihomo/validate.go:118-132 | In an accepted rule the AND and OR nodes are fewer than the leaves, whatever the nesting and however many NOT nodes. |
| Acceptance.CountsMean | internal/mihomo/validate.go:118-132 | The counts are the numbers of places in the tree with AND or OR, and with no children. |
| Expansion.FiniteIffAcyclic | internal/mihomo/validate.go:214-257 | Without a cycle every group expands within as many levels as there are groups; with one, some group does not expand within any number of levels. |
| Expansion.ChainNeedsBudget | internal/mihomo/validate.go:214-257 | An expansion that ended was at least as deep as every chain of references from its group. |
| Expansion.ExpansionReaches | internal/mihomo/validate.go:214-257 | A finished expansion holds exactly the policies that some chain of references from the group leads to. |
| Expansion.AcceptedGroupsExpand | internal/mihomo/validate.go:31-57 | In an accepted list every chain visits at most as many groups as there are, and every group expands to a finite, non-empty list of well-formed built-in or inbound policies. |
| Reorder.ReorderKeepsGroupVerdict | internal/mihomo/validate.go:31-57 | Permuting the groups and renumbering the references never changes whether they are accepted. |
| Reorder.RenumberKeepsRule | internal/mihomo/validate.go:82-135 | The same renumbering in a rule tree changes neither the verdict nor the reported error. |
| Reorder.ReorderKeepsRuleVerdict | internal/mihomo/validate.go:62-74 | Nor for the whole rule list. |
| Reorder.ReorderMoves | internal/mihomo/validate.go:31-57 | Reordering moves each group with all its fields and members, and each reference leads to where its group moved. |
| Reorder.RenumberMoves | internal/mihomo/validate.go:82-135 | Renumbering changes nothing of a rule but where its targets lead, at every depth. |
| Decode.TrimSpace | internal/mihomo/decode.go:122-133 | What is left begins and ends with no white space, and a trimmed string is left alone. |
| Decode.TrimTakesOnlySpace | internal/mihomo/decode.go:122-133 | Nothing but white space is taken off, and only at the two ends. |
| Decode.RulesFromDTO | internal/mihomo/decode.go:138-163 | The loop decodes every node of every tree, keeping shape and order. |
| Decode.DecodeConfig | internal/mihomo/decode.go:65-118 | The loops decode every group, member, rule and provider in order. |
| Decode.DecodedIsNormal | internal/mihomo/decode.go:65-178 | Whatever came over the wire, a decoded draft has trimmed names, values absent or non-empty and trimmed, and references without stray ids. |
| Decode.EmbedRound | internal/mihomo/decode.go:65-178 | Writing a draft in the wire shape and decoding it gives the same draft exactly when the draft is normal in that sense. |
| Decode.DecodingTwiceIsDecodingOnce | internal/mihomo/decode.go:65-178 | Decoding is a normalisation. |
| Decode.DecodedRefFaults | internal/mihomo/decode.go:165-178 | A decoded reference is malformed exactly through an unknown kind or the missing id of its kind, never through a stray one. |
| Padding.SpacesAre | internal/mihomo/decode.go:122-133 | The white space that trimming takes off, character by character. |
| Padding.TrimIffPads | internal/mihomo/decode.go:122-133 | Trimming a string gives v exactly when v has no white space at its ends and the string is v with nothing but white space around it. |
| Padding.DecodedIffPads | internal/mihomo/decode.go:65-178 | A draft is what a wire config decodes to exactly when every trimmed field of it stands in the wire field with only white space around, absent values stood for nothing but white space, every reference kept the id of its kind, and all else is equal, in order and at every depth. |
| Padding.PaddedValueIsKept | internal/mihomo/decode.go:120-133 | A padded rule value is kept without its padding, and nothing else of the rule changes. |
| Padding.StrayIDsAreDropped | internal/mihomo/decode.go:165-178 | A reference with both ids keeps that of its kind and drops the other. |
| RuleRows.RowBuilder.Build | internal/repository/routing/save_mihomo_config.go:141-192 | The recursive builder fails exactly when a stored reference does not resolve, and otherwise appends the pre-order rows with consecutive ids. |
| RuleRows.RowBuilder.BuildFrom | internal/repository/routing/save_mihomo_config.go:153-186 | The same for the loop over siblings from any position. |
| RuleRows.Scope | internal/repository/routing/save_mihomo_config.go:132-192 | Pre-assigned ids lie just above the largest stored one, and a parent's id is below its children's. |
| RuleRows.RowMeans | internal/repository/routing/save_mihomo_config.go:153-177 | Each column of a rule row: own fields as they are, indices turned into ids, only a true no-resolve set, the id column of the target's kind and no other. |
| RuleRows.FlattenApart | internal/repository/routing/save_mihomo_config.go:132-192 | Ids of one forest are unique, and siblings have different positions. |
| RuleRows.FlattenRefers | internal/repository/routing/save_mihomo_config.go:153-187 | Group and provider columns hold ids of this save, and each parent column the id of a row of the same forest. |
| RuleRows.SiblingsIncreasing | internal/repository/routing/save_mihomo_config.go:153-186 | Under every parent the rows stand in strictly increasing position. |
| RuleRows.AnswerSiblings | internal/repository/routing/rules.go:14-16 | Whatever order the database picks among ties, each parent's rows come in draft order. |
| RuleRows.ReadRules | internal/repository/routing/rules.go:13-119 | For any rows with unique ids, linking through the id map and freezing ends and gives the trees below the parentless rows, with children in row order. |
| RuleRows.FreezeSiblings | internal/repository/routing/rules.go:102-118 | The recursive freeze ends and rebuilds each subtree. |
| RuleRows.RuleOfMeans | internal/repository/routing/rules.go:51-77 | A rule carries what its row holds, and a target exactly when the row has a kind. |
| RuleRows.FrozenMeans | internal/repository/routing/rules.go:102-116 | Each frozen tree is the rule of its row, with the trees of the rows that name it as parent below it, in query order. |
| RuleRows.LineageIsShort | internal/repository/routing/rules.go:102-111 | Following children down from a parentless row never meets a row twice, whatever the parent column holds, so the recursive freeze ends. |
| RuleRows.ReadBack | internal/repository/routing/rules.go:13-119 | Whatever else the table holds, the rows of a saved rule forest link back into exactly the trees that were saved. |
| Store.Repository.BuildMembers | internal/repository/routing/save_mihomo_config.go:83-102 | Fails exactly when a member does not resolve; else gives all members, in order, with their indices replaced by ids. |
| Store.Repository.SaveMihomoConfig | internal/repository/routing/save_mihomo_config.go:25-130 | All tables take over the draft or none changes; it fails exactly when a name repeats, a reference does not resolve or a row breaks a CHECK constraint or names a missing inbound, and tells a repeated provider name apart from all other failures; ids and names stay unique and no reference ever dangles. |
| Store.SaveKeepsValid | internal/repository/routing/save_mihomo_config.go:132-140 | After any save ids are unique in every table and below the counters, names are unique within a config and positions among siblings, parents come before children, and all foreign keys hold. |
| Store.ClearedIsValid | internal/repository/routing/save_mihomo_config.go:34-45 | The four deletions leave no reference to a deleted row, so no foreign key stops them. |
| Store.SaveKeepsReferences | internal/repository/routing/save_mihomo_config.go:25-130 | Every member and rule refers to groups, providers and rules of its own config and to existing inbounds, before and after. |
| Store.OtherConfigsUntouched | internal/repository/routing/save_mihomo_config.go:34-45 | A save leaves the groups, members, rules, providers, settings and profile of every other config as they were, and the inbounds. |
| Store.SaveLeavesOthers | internal/repository/routing/save_mihomo_config.go:15-45 | For each other config, exactly its own rows, setting and profile are there before and after. |
| Store.RuleIDsFollow | internal/repository/routing/save_mihomo_config.go:132-140 | Rule ids are counted on from the largest id that the table keeps. |
| Store.AddedRowsAreConstrained | migrations/0004-mihomo-rule-children.notx.sql:35-36 | Every row a save adds has a target at the top and only there, and the id column of its kind and no other. |
| Isolation.SameRowsShowTheSame | internal/handlers/config_get/handler.go:46-132 | What a config shows depends on its own rows only, and on no tie the database may break. |
| Isolation.OthersShowTheSame | internal/repository/routing/save_mihomo_config.go:15-45 | What any other config shows is the same before and after a save, however the reads are answered. |
| ConfigView.ReadGroups | internal/repository/routing/proxy_groups.go:13-101 | Each group gets exactly its own members in answer order; members of other configs are skipped. |
| ConfigView.GroupOfMeans | internal/repository/routing/proxy_groups.go:27-97 | A group carries its row's fields and the references of the member rows that name it, in query order. |
| ConfigView.ConfigGet | internal/handlers/config_get/handler.go:77-132 | The handler's loops show every group, rule and provider with ids turned into list indices. |
| ConfigView.ViewMeans | internal/handlers/config_get/handler.go:149-193 | An id missing from the index map is shown without an index, an id of another kind not at all, and all other fields as they are. |
| ConfigView.IndexMapFinds | internal/handlers/config_get/handler.go:77-85 | With distinct ids the index map leads each id to its place. |
| Answers.GroupsReadBack | internal/repository/routing/proxy_groups.go:14-16 | Every answer to the ordered group query is the saved groups in draft order. |
| Answers.GroupIDsReadBack | internal/repository/routing/save_mihomo_config.go:61-64 | Every answer to the position-ordered query for the new group ids lists them in draft order, so an index finds its group. |
| Answers.ProviderIDsReadBack | internal/repository/routing/save_mihomo_config.go:84-87 | Every answer to the id-ordered query for the new provider ids lists them in draft order. |
| Answers.MembersReadBack | internal/repository/routing/proxy_groups.go:70-101 | In every answer the members of a saved group are its draft members in order, though the query reads all configs. |
| Answers.ProvidersReadBack | internal/repository/routing/rule_providers.go:10-33 | Every answer is the saved providers permuted into strict name order. |
| Answers.RulesReadBack | internal/repository/routing/rules.go:13-119 | Every answer to the rule query can be linked and gives the saved trees. |
| Answers.QueriesHaveAnswers | internal/repository/routing/rules.go:14-16 | The orders asked for are total preorders, and every valid database has an answer to all four queries. |
| RoundTrip.RulesShow | internal/handlers/config_get/handler.go:149-193 | At every depth a stored good rule is shown with its own fields and indices, the provider index following its provider. |
| RoundTrip.AcceptedRowsPassChecks | migrations/0004-mihomo-rule-children.notx.sql:35-36 | The rows of accepted rules satisfy both constraints of the rule table at every depth. |
| RoundTrip.MembersFitIff | migrations/0001-init.sql:106-114 | Resolved members satisfy their table exactly when their inbounds exist. |
| RoundTrip.RulesFitIff | migrations/0004-mihomo-rule-children.notx.sql:23-37 | The rows of accepted rules satisfy their table exactly when the inbounds of the top-level targets exist. |
| RoundTrip.AcceptedIsSavable | internal/repository/routing/save_mihomo_config.go:25-130 | What the validators accept the store refuses for a repeated provider name or a missing inbound and for nothing else. |
| RoundTrip.ReadConfig | internal/handlers/config_get/handler.go:28-132 | The reads and the handler together compute the shown config that the round trip speaks of. |
| RoundTrip.GetConfig | internal/handlers/config_get/handler.go:28-143 | The whole handler: a user without a config is not found, a base never saved shows seven empty fields, and any other config is shown from the answers to its reads. |
| RoundTrip.SaveThenShow | internal/handlers/config_get/handler.go:77-132 | Saving an accepted draft and showing it gives the same groups, rules, base YAML and profile, with the providers in name order and every provider index following. |
| RoundTrip.RoundTrip | internal/mihomo/draft.go:3-14 | Decode, save, read, show and decode again ends in the canonical form of the draft, whatever else is stored and however the database answers; each RULE-SET index means the same provider; and the result is the saved draft exactly when its providers stood in name order and no rule had an explicit false no-resolve. |
| RoundTrip.UnchangedIff | internal/repository/routing/rule_providers.go:9-11 | The canonical form of a draft is the draft itself exactly under that condition. |
| RoundTrip.CanonicalMeans | internal/handlers/config_get/handler.go:77-132 | The canonical form has the same groups, base YAML and profile, the same rules at every depth with the provider index following and a false no-resolve dropped, and each provider at its new place. |
| RoundTrip.TripExists | internal/repository/routing/save_mihomo_config.go:25-130 | After any save the reads of the config have answers, so the trip can be made. |
| RoundTrip.TripsThatChange | internal/repository/routing/rule_providers.go:9-11 | Two accepted configs, one with providers out of name order and one with an explicit false no-resolve, are saved into an empty store and come back changed. |
| RoundTrip.SecondTripChangesNothing | internal/handlers/config_get/handler.go:28-132 | What came back is accepted, savable in any store that has its inbounds, and a second trip returns it unchanged. |
| Migrations.CommitExtends | migrations/run.go:83-114 | A commit that goes through records exactly the next file, however stale the check was. |
| Migrations.StepKeepsInv | migrations/run.go:37-55 | Every step of any process (start, check, commit, failure before or after the commit, crash) keeps the recorded names a prefix of the file list and the schema that prefix applied. |
| Migrations.EveryHistoryIsSafe | migrations/run.go:24-55 | Hence every interleaving of any number of processes does. |
| Migrations.FreshIsSafe | migrations/run.go:25-30 | A database with nothing recorded satisfies it. |
| Migrations.CommitsAreRecorded | migrations/run.go:109-113 | Over any history the commits of a name and its record balance. |
| Migrations.AtMostOnce | migrations/run.go:70-114 | From a fresh database each migration commits at most once, although the check is outside the transaction. |
| Migrations.ReturnedMeansConverged | migrations/run.go:37-55 | Once any run returned nil, every file is recorded and the schema is that of one clean run. |
| Migrations.SuccessfulRunsAgree | migrations/run.go:24-55 | Two histories, however they crashed and interleaved, end in the same database as soon as each has a successful run. |
| Migrations.ConvergedStays | migrations/run.go:43-45 | From then on no history changes the database. |
| Migrations.UpgradeIsSafe | migrations/run.go:14-23 | A database left by an earlier release, complete or not, is a valid start for one that appends files. |
| Migrations.Database.ApplyOne | migrations/run.go:83-114 | The DDL and its record commit together or nothing changes; only a lost commit report can fail after a change. |
| Migrations.Database.Interfere | migrations/run.go:37-52 | The other processes take every step they can, in order; that extends the history so far, and the database changes only by a commit of theirs. |
| Migrations.Database.Apply | migrations/run.go:24-55 | While other processes act before every check and between it and the commit, the loop is one process's part of a history of the machine. It stops only at a file where something of its own failed, where another process committed between its check and its commit, or whose DDL does not fit; so without faults, with fitting files and no commit in that window it returns nil, whatever others recorded before its checks. When it returns nil every file is recorded. |
| Router.Search | internal/oas/oas_router_gen.go:64-860 | The case code, with elem reassigned and origElem restored, computes the trie walk. |
| Router.SavedPath | internal/oas/oas_router_gen.go:136-703 | When every case restores the path, falling out of the switch leaves it as it was, but for the break at the end of a prefix. |
| Router.WalkIsLookup | internal/oas/oas_router_gen.go:64-860 | On any well-formed trie, walking equals looking the path up in the list of its routes, literal routes first, exactly off the stray paths. |
| Router.RootRoutes | internal/oas/oas_router_gen.go:64-860 | The routes of the generated trie are the 23 of the table, each with its method. |
| Router.OneStrayPath | internal/oas/oas_router_gen.go:137-147 | A path is stray in the generated trie exactly when it is `/admin/api/`. |
| Router.StrayWalk | internal/oas/oas_router_gen.go:137-147 | On that path the walk reaches the view route with an empty argument. |
| Router.WhereTheyPart | internal/oas/oas_router_gen.go:64-860 | The walk agrees with the table exactly on the paths other than `/admin/api/`, where the table has no route. |
| Router.RootWalk | internal/oas/oas_router_gen.go:64-860 | For every path the walk reaches the operation and arguments of the table with its exception, or none. |
| Router.ServeHTTP | internal/oas/oas_router_gen.go:64-860 | Every path and method is handled, answered 405 with the allowed method, or 404, as the rows of the table prescribe. |
| Router.FindPath | internal/oas/oas_router_gen.go:913-1708 | The route finder finds exactly what the server handles, with the same arguments. |
| Router.RowDecides | internal/oas/oas_router_gen.go:64-860 | When the pattern of a row and fitting arguments spell the path, and no literal row does if the row has parameters, then its operation is handled with these arguments for its method, and any other method is answered 405. |
| Router.NoRowNotFound | internal/oas/oas_router_gen.go:856-860 | A path that no row spells is answered 404, but for the one exception. |
| Router.ExceptionIsView | internal/oas/oas_router_gen.go:137-147 | The exception is the admin view with an empty argument, by GET. |
| Router.TableVerbs | internal/oas/oas_router_gen.go:64-860 | Eleven operations answer to GET and twelve to POST. |
| Router.MatchIffFill | internal/oas/oas_router_gen.go:64-860 | A path matches a pattern with some arguments exactly when they fit and spell out the path, so every path has one reading. |
| Router.TableIsDelimited | internal/oas/oas_router_gen.go:64-860 | All 23 patterns are of the kind for which that holds. |
| RequiredFields.SeenBits | internal/oas/oas_json_gen.go:560-680 | For any keys, repeated, unknown and in any order, a required field's bit is set exactly when its name occurs. |
| RequiredFields.LowestBit | internal/oas/oas_json_gen.go:693-709 | One round of the loop takes off the lowest missing field and one from the bit count. |
| RequiredFields.Decode | internal/oas/oas_json_gen.go:556-717 | Reports exactly the required fields never seen, in field order, and uses the residue up. |
| RequiredFields.MissingMeans | internal/oas/oas_json_gen.go:684-712 | What is reported, without recursion: required names that are no key, in strictly ascending field order. |
| RequiredFields.ShapesAreValid | internal/oas/oas_json_gen.go:3545-3680 | Both decoders, also the one with the gapped mask, are of the shape that the result needs. |
| RequiredFields.ConfigSaveAsks | internal/oas/oas_json_gen.go:544-712 | The save decoder reports those of its seven required names that are no key, in their order. |
| RequiredFields.NodeSaveAsks | internal/oas/oas_json_gen.go:3534-3680 | The node decoder does so for its five. |
| HumanSize.NextQuotient | internal/handlers/provider_check/handler.go:73-76 | Nested floor division by 1024 keeps the count between consecutive multiples of the divisor. |
| HumanSize.LoopEnds | internal/handlers/provider_check/handler.go:73-78 | At the end the divisor is at most the count and the mantissa below 1024; the suffix exists exactly below 1024 to the fifth. |
| HumanSize.HumanSize | internal/handlers/provider_check/handler.go:66-79 | Plain bytes below 1024; then the power of 1024 with the mantissa in [1, 1024) and its suffix; for what a probe can read, K or M; the index panic exactly from 1024 to the fifth on. |
| ConfigSave.YAMLFirst | internal/mihomo/validate.go:10-26 | The base document is reported as unparsable first, then for a generated section. |
| ConfigSave.ValidateRuleProviders | internal/mihomo/validate.go:137-158 | Returns the first failure in (provider, check) order. |
| ConfigSave.ProfileFirst | internal/mihomo/validate.go:160-187 | Returns the first failing check of the profile fields. |
| Faults.ProviderFault | internal/mihomo/validate.go:144-155 | Which fault of a provider is reported: name, behavior, format, URL. |
| Faults.FirstProvider | internal/mihomo/validate.go:144-157 | Of several faulty providers the first is reported. |
| Faults.ProfileFault | internal/mihomo/validate.go:160-187 | Which fault of the profile is reported: title, missing filename, a slash, backslash or control character in it, the interval. |
| ConfigSave.GoodProviderMeans | internal/mihomo/routing.go:23-26 | A good provider has a name, a URL, and a behavior and a format out of three each. |
| ConfigSave.SafeFilenameMeans | internal/mihomo/validate.go:174-187 | A filename is refused exactly for a slash, a backslash or an ASCII control character. |
| ConfigSave.GeneratedKeysAre | internal/mihomo/routing.go:28-34 | The five top-level keys that the base document must not have. |
| Messages.MessageSays | internal/handlers/config_save/handler.go:22-54 | Each of the 30 sentinels has its own text. |
| Messages.MessagesDiffer | internal/handlers/config_save/handler.go:145-210 | Different sentinels have different texts. |
| ConfigSave.Handler.Validated | internal/handlers/config_save/handler.go:82-101 | The five validators chained through one error report the first failure of all checks of the config. |
| ConfigSave.PassedIsGood | internal/handlers/config_save/handler.go:82-101 | All five pass exactly when groups, rules, providers and profile are good and the base YAML is an acceptable document. |
| ConfigSave.GoodIsSavable | internal/handlers/config_save/handler.go:128-139 | The store refuses a passed config for a repeated provider name or a missing inbound only. |
| ConfigSave.Configs.EnsureBaseConfigID | internal/repository/configs/base_config.go:30-47 | The base config is created on the first call, with an id that no user's config has, and found on all later ones. |
| ConfigSave.Handler.ConfigSave | internal/handlers/config_save/handler.go:75-140 | The first failed check is answered 400 with the text of its sentinel and leaves both stores untouched, so no base config appears; a missing custom config likewise. Otherwise the draft is good: with user 0 it is stored whole in the base config, else in the user's own, and every other config keeps its rows; or it is refused 400 for a repeated provider name, or fails 500 for a missing inbound, the tables then unchanged. |

## Left out

- Store.Repository.SaveMihomoConfig: takes the config id as that of an existing config, as the handler resolves it, and takes the ids of new groups and providers as read back in draft order, which `Answers.GroupIDsReadBack` and `Answers.ProviderIDsReadBack` justify; I/O errors are not modelled.
- ConfigSave.Handler.ConfigSave: JSON marshalling, logging and I/O errors of the database are not modelled; which documents parse as YAML, and with which top-level keys, is a parameter; config kinds other than mihomo are not part of this model.
- ConfigView.ConfigGet: is the part of the handler after its reads; `RoundTrip.GetConfig` is the whole. Read errors are not modelled.
- Router.ServeHTTP: starts at the plain path with an empty prefix; escaped raw paths, the server prefix and the headers of a 405 answer are not modelled. Server and finder are unrolled texts of one trie, which the model holds as data; that both texts spell this trie is read off the source.
- RequiredFields.Decode: starts from the sequence of keys with well-formed values; decoding the values themselves is not modelled.
- HumanSize.HumanSize: gives count, divisor and suffix; formatting their quotient to one decimal is not modelled.
- Migrations.Database.Apply: creating the bookkeeping table and reading and sorting the embedded files are not modelled; that `.notx.sql` files record themselves in their own transaction is taken from the comment at migrations/run.go:89-93. What PRAGMA settings a pooled connection keeps is not modelled.
- Integers are unbounded: the 64-bit width of ids, intervals and counters is not modelled.
- nil and empty lists are one value, as no modelled code tells them apart.
- RuleRows.ReadRules: nodes with pointer children are a map from id to child rows; two rows with one id, which the primary key excludes, are not modelled.
- Queries: an answer is any ordering that its ORDER BY allows; SQL text, the driver and the batching of inserts are not modelled. Ids that the database assigns are consecutive per insert.
- Cloning and deleting configs, the renderer, provisioning, nodes, users, fetching and checking provider lists, HTTP clients, login, sessions, tokens, TLS reloading, static pages: not part of this model.
