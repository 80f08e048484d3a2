# Verification of the HANA provider's reconciliation logic

This project models the logic by which the Crossplane provider for SAP HANA keeps users, roles, audit policies and
personal security environments (PSEs) in the state their resources describe, and proves what that logic promises.
`dafny verify dfyconfig.toml` checks everything.

The provider compares *strings*: it formats the privileges of a spec, reads the granted ones as strings, takes
differences, groups them into `GRANT` and `REVOKE` statements and executes these one after the other. So the proofs go
in layers:

1. **The language** (`Strings`, `Regexp`, `Quoting`, `Tokens`, `Privilege`, `Grammar`, `Tails`, `Matching`, `Dotted`,
   `SystemNames`, `RoundTrip`, `SystemWords`, `Converse`, `Spelling`, `Readings`, `Language`, `Roles`, `Preprocess`,
   `RoleClient`, `RoleNames`, `Examples`). The ordered list of regular expressions is modelled by a leftmost-first
   matcher that lists all ways to match in order of preference. The main result is an equivalence: a privilege comes
   back from its printed text *if and only if* it is `Canonical`, for every kind and all characters. Roles come back
   without any condition. What the patterns accept is said once more without regular expressions, as a spelling of
   words, white space and identifiers (`Spelling.MatchesSpelled`), and a text of each kind is read as it is spelled
   (`Readings`).
2. **Differences, grants and grouping** (`SetDiff`, `Grants`, `Grouping`, `Statements`, `Queries`, `Execution`). Grouped
   statements in any order have the effect of the privileges one by one, as long as no schema or special name has a dot.
   Statements are texts: what they do is what a reader finds in them.
3. **The user reconciler** (`UserModel`, `Defaults`, `UserConvergence`, `UserRuns`, `UserPassword`, `LaxSafety`,
   `LaxConvergence`, `CatalogueNames`, `UserProgress` as a state machine; `UserClient`, `UserController` as the classes
   that run it, with statements that may fail). Convergence is an equivalence over whole runs, for both policies; safety
   of the lax policy is proved over whole runs with spec edits.
4. **Concurrent and interrupted protocols** (`Pse`, `AuditPolicy`, `Pool`, `PoolCalls`): every interleaving of the
   goroutines, every crash point, every interleaving of `Connect` calls.

## Assumptions about the database

- What is granted to a user is a map from a privilege without its option to whether it carries the option; `GRANT` adds
  and joins the option, `REVOKE` carries no option and removes the grant. Roles are keyed by schema, if any, and name; a
  delimited identifier in a statement over roles names the role without schema.
- A statement happens as a whole or fails without effect; any statement may fail.
- In the text of a statement over privileges the body reaches up to `TO` or `FROM` and the grantee it was sent for, and
  the option is what follows (`Queries.ReadGrant`, `Queries.ReadRevoke`).
- A grouped statement `n1, n2 ON target` means each name with that target (`Statements.Reading`); what of it cannot be
  read as a privilege has no effect.
- The catalogue shows a grant in one row, with the names in the case in which they were granted. Where it shows
  privilege names in capitals and with single blanks, a spec with other names is never up to date
  (`CatalogueNames.OnlyNormalLooks`), and for one with such names nothing changes (`CatalogueNames.NormalStays`).
- The grantee, which the statements print without quotes, names the user who is observed.
- Certificates have unique numbers and unique names; `CREATE AUDIT POLICY` makes a disabled policy.

## Where the code does not do what one expects

Each of these is proved, with the exact condition under which the code does what it should.

- The quoted name of a special object, a column key or a structured privilege, such as `USAGE ON PSE "a b"`, is accepted
  but formatted without quotes; the result reads back exactly when no quotes were needed (`Language.QuotedSpecialIff`,
  `Language.QuotedColumnKeyIff`, `Language.QuotedStructuredIff`).
- An unqualified quoted object with a dot and no white space in its name is cut in two by the pattern for qualified
  objects (`Language.UnqualifiedObjectIff`).
- With a dot in the schema or special name the grouped statement names another object. Under the lax policy a grant that
  was never listed is then granted or revoked (`LaxSafety.DottedRunRevokes`, `LaxSafety.OneListedIff`).
- A change of the option alone needs two reconciliations, and the grant is absent in between (`Grants.PassEntries`,
  `Grants.OnePassIff`).
- A role of a schema is reported as `schema.role` in one pair of quotes, and every statement for this string names the
  role without schema of that name (`RoleNames.JoinedNameIsOther`). So no update moves a role of a schema
  (`UserRuns.SchemaRoleStays`), and where the joined name is wanted, a held role of a schema looks like it
  (`RoleNames.LooksMetIsNot`). A delimited role name in a spec is taken for the role it means exactly when it has no
  schema, although the comment at the pattern promises qualified names (`RoleNames.DelimitedRoleIff`); a bare
  `SCHEMA.ROLE` is taken for the role without schema of that name (`RoleNames.BareRole`).
- Under strict, two failure-free reconciliations make a user look up to date exactly when the lists can be settled and
  nothing obstructs (`UserRuns.Converges`), and what looks so is so exactly when every held grant has a text of its own
  and no held role has a schema (`UserConvergence.MetIff`). The lists can be settled when no grant is listed both with
  and without option, as long as nothing is taken for something else (`UserRuns.PlainSettleable`; `Grants.ShadowPasses`
  for the general case); also needed are the parameters of the account and a secret reference in a password object.
  Differences between parameter maps are never reported (`SetDiff.MapsBothDiff`), and a password without a secret is
  never up to date (`UserPassword.WithoutSecretNever`).
- An obstruction is a grant that would have to move and cannot: its text cannot be read, such as `USAGE ON PSE A B`,
  which blocks every update at its first step (`UserRuns.BlockedStays`); or it is read as another grant, such as that on
  the PSE `A WITH GRANT OPTION` (`CatalogueNames.MisreadPse`); or its schema or special name has a dot. It stays through
  every update (`UserRuns.ImmovableStays`, `UserRuns.ObstructedStays`).
- Under lax, reconciliations settle a list exactly when the default privilege is not listed, the listed grants that
  cannot be moved are there, no grant is listed both with and without its option, none is listed without and held with
  it, unless its string was managed before and is given up, and the rest can be settled as under strict
  (`LaxConvergence.LaxConverges`; `Grants.StuckAt` also counts what other grants are taken for). A privilege first
  listed without the option that the user holds it with is never reported up to date
  (`LaxConvergence.FirstListedNever`).
- Two references to one certificate hide a certificate that should be dropped, and never settle
  (`Pse.DuplicateHidesDrop`, `Pse.SettlesIff`).
- An audit policy with NULL retention and otherwise equal status and level is dereferenced; it stays as it is for ever
  (`AuditPolicies.OneReconciliationIff`).
- A connection handed out by `Connect` can be closed by a later `Connect` (`Pool.ReturnedIsOpenIff`,
  `Pool.ReturnedMayBeClosed`), and `Disconnect` closes everything exactly when no `Connect` is between opening a handle
  and putting it into the map, or puts one there before the map is cleared (`Pool.DisconnectIff`,
  `Pool.SwapDuringDisconnectLeaks`).
- Preprocessing trims Unicode spaces that the patterns count as part of an unquoted name (`Preprocess.PreprocessIdIff`).

## Model

| member | source | states |
|---|---|---|
| Regexp.PrefixesAreLang | internal/clients/hana/privilege/privilege.go:470-557 | the ordered list of successes of an expression contains exactly the prefixes in its language |
| Regexp.FirstOfPicks | internal/clients/hana/privilege/privilege.go:564-565 | the match taken is the first one in the order of preference, part by part |
| Regexp.MatchIff | internal/clients/hana/privilege/privilege.go:564-565 | a list of expressions matches a text exactly when the text can be split among their languages |
| Quoting.UnescapeEscape | internal/utils/utils.go:8-14 | undoubling quotes undoes doubling them, for every text and quote character |
| Quoting.QuotedIsQuoted | internal/clients/hana/privilege/privilege.go:446-455 | cleaning a quoted identifier gives the identifier back, for all characters |
| Quoting.BodyUnique | internal/clients/hana/privilege/privilege.go:446-446 | a delimited identifier ends at exactly one place |
| Quoting.QuotedBack | internal/clients/hana/privilege/privilege.go:446-455 | every delimited text is the quoting of what cleaning makes of it |
| Quoting.ReadListBack | internal/utils/utils.go:8-14 | a joined list of delimited texts scans back to exactly these texts, in order |
| Matching.PartsUnique | internal/clients/hana/privilege/privilege.go:470-535 | a canonical text with a target can be cut into name, clause, identifier and option in one way only |
| Matching.OthersFail | internal/clients/hana/privilege/privilege.go:470-535 | the patterns of the other targets do not match a canonical text, whichever is tried first |
| Dotted.QuotedFirst | internal/clients/hana/privilege/privilege.go:446-446 | in front of a rest that matches, the quoted reading of an identifier is preferred to the unquoted ones |
| Dotted.DottedMatch | internal/clients/hana/privilege/privilege.go:527-533 | the pattern for qualified objects cuts a printed schema and object exactly at the dot between them, whatever dots and quotes they contain |
| SystemNames.SystemMatch | internal/clients/hana/privilege/privilege.go:549-556 | what the lazy system pattern takes as name and option, for every system name: the intended cut exactly under the stated condition |
| RoundTrip.CanonicalParses | internal/clients/hana/privilege/privilege.go:559-590 | parsing the text of a canonical privilege of any kind gives the privilege back |
| Converse.RoundTripIff | internal/clients/hana/privilege/privilege.go:324-355 | parsing undoes printing if and only if the privilege is canonical, for every privilege and default schema |
| Spelling.ClauseLang | internal/clients/hana/privilege/privilege.go:472-540 | what an expression for a clause accepts: ON and each keyword in any case, with any white space, at least one character, before and after each |
| Spelling.OptionLang | internal/clients/hana/privilege/privilege.go:472-556 | what an expression for an option accepts: nothing, or WITH, the word and OPTION in any case, with any white space before each |
| Spelling.MatchesSpelled | internal/clients/hana/privilege/privilege.go:470-557 | each of the twelve patterns fits exactly the texts with its spelling, which is told in words, white space and identifiers and without expressions |
| Readings.ReadTarget | internal/clients/hana/privilege/privilege.go:472-526 | a text with a clause of keywords is read as spelled, whatever its white space and the case of its words: the name as it stands, the identifier cleaned, the option if there is one |
| Readings.ReadPlain | internal/clients/hana/privilege/privilege.go:534-540 | an unqualified object is read as spelled, in the default schema, unless its identifier has a dot inside and no white space |
| Readings.ReadQualified | internal/clients/hana/privilege/privilege.go:527-533 | an object with a delimited schema is read as spelled, whatever characters the schema has |
| Readings.ReadBareQualified | internal/clients/hana/privilege/privilege.go:527-533 | a bare qualified object is cut at its last dot |
| Readings.ReadStructured | internal/clients/hana/privilege/privilege.go:541-547 | a structured privilege is read as spelled |
| Readings.ReadSystem | internal/clients/hana/privilege/privilege.go:548-576 | a system privilege is read as spelled, with or without admin option, where no other spelling fits and the option neither follows a single letter nor hides in the name |
| Readings.ReadOneWord | internal/clients/hana/privilege/privilege.go:548-576 | a system name of one word is read as it stands, with any white space around it |
| Examples.SchemaExample | internal/clients/hana/privilege/privilege.go:520-526 | a schema privilege with two blanks, a tab, a line break and mixed case, and what it is read as |
| Examples.ObjectExample | internal/clients/hana/privilege/privilege.go:527-533 | the same for a bare qualified object |
| Examples.PrintedForms | internal/clients/hana/privilege/privilege.go:324-355 | the printed text of each kind of privilege, written out |
| Examples.SpecialForms | internal/clients/hana/privilege/privilege.go:295-355 | the printed text of a privilege on a PSE or provider, whose name is not quoted |
| SystemWords.PlainIsCanonical | internal/clients/hana/privilege/privilege.go:548-556 | one half of this: such a name is canonical |
| SystemWords.ReadsOnIff | internal/clients/hana/privilege/privilege.go:559-576 | what is taken for a privilege on something has the word ON, and among texts with blanks only, exactly these are |
| SystemWords.PlainSystemIff | internal/clients/hana/privilege/privilege.go:548-576 | the canonical system privileges are exactly those with a name of the right characters that is neither taken for a privilege on something nor for a structured one, and has no end of an option, whatever its white space |
| SystemWords.OneWordIsCanonical | internal/clients/hana/privilege/privilege.go:548-556 | every name of one word, with or without a dotted suffix, is canonical with and without option |
| Language.SystemRoundTripIff | internal/clients/hana/privilege/privilege.go:559-590 | a system privilege comes back from its text exactly when its name is plain, for every name |
| Language.AcceptedIff | internal/clients/hana/privilege/privilege.go:559-590 | a text is accepted exactly when it has one of the other spellings, or the system spelling with neither ON nor grant option; and exactly which error the others get |
| Language.ParseAllIs | internal/clients/hana/privilege/privilege.go:415-425 | a list parses exactly when every text does, position by position |
| Language.ParsePrivilegeStrings | internal/clients/hana/privilege/privilege.go:415-425 | the loop returns all privileges in order, or the first error |
| Language.FormatPrivilegeStrings | internal/clients/hana/privilege/privilege.go:377-387 | the loop returns the canonical texts in order, or the first error |
| Language.FormatKeepsCanonical | internal/clients/hana/privilege/privilege.go:377-387 | canonical texts are fixed points of the formatter |
| Language.FormatAgainIff | internal/clients/hana/privilege/privilege.go:377-387 | a formatted text reads back to the same privilege exactly when that privilege is canonical |
| Language.FormatStableIff | internal/clients/hana/privilege/privilege.go:377-387 | a string is left alone by the formatter if and only if it is the text of a canonical privilege |
| Language.TextInjective | internal/clients/hana/privilege/privilege.go:324-355 | canonical privileges with the same text are the same grant |
| Language.EqualStringsEqualGrants | internal/clients/hana/privilege/privilege.go:324-355 | equality of sets of canonical strings is equality of sets of grants |
| Language.RowIsFixedPoint | internal/clients/hana/privilege/privilege.go:661-746 | what is printed for a well-formed catalogue row is left alone by the formatter |
| Language.RowDetermined | internal/clients/hana/privilege/privilege.go:661-746 | the text of a well-formed row determines schema, object and option, and the privilege name where it is printed: no two grants are reported alike |
| Language.RowOfIsRead | internal/clients/hana/privilege/privilege.go:661-746 | the catalogue row of a grant is read as this grant |
| Language.QuotedSpecialIff | internal/clients/hana/privilege/privilege.go:485-512 | the quoted name of a PSE or provider is accepted, with and without option, and what it formats to reads back exactly when the name needs no quotes |
| Language.QuotedColumnKeyIff | internal/clients/hana/privilege/privilege.go:478-484 | the same for column keys |
| Language.QuotedStructuredIff | internal/clients/hana/privilege/privilege.go:541-547 | the same for structured privileges |
| Language.UnqualifiedObjectIff | internal/clients/hana/privilege/privilege.go:527-540 | an unqualified quoted object, whatever its characters, is looked up in the default schema exactly unless its name has a dot and no white space |
| Language.SpacedPseUnreadable | internal/clients/hana/privilege/privilege.go:295-314 | the text of a privilege on the PSE named A B cannot be read |
| Roles.RoleRoundTrip | internal/clients/hana/privilege/privilege.go:427-455 | parsing and cleaning a printed role gives it back, for every name and both options |
| Roles.RoleTextInjective | internal/clients/hana/privilege/privilege.go:228-242 | the printed form determines the role |
| Roles.FormatRoleStrings | internal/clients/hana/privilege/privilege.go:361-375 | the loop returns the canonical role texts in order, or the first error |
| Roles.FormatRolesIdempotent | internal/clients/hana/privilege/privilege.go:361-375 | formatting twice is formatting once, on everything accepted |
| Roles.GrantRoles | internal/clients/hana/privilege/privilege.go:76-111 | the statements are those of the roles without option, then those with it; or the first parse error |
| Roles.GrantReadsBack | internal/clients/hana/privilege/privilege.go:97-109 | the first statement scans back to exactly the names without option, the last to exactly those with it, in order, for all characters |
| Roles.RevokeRoles | internal/clients/hana/privilege/privilege.go:129-147 | one statement over all names, none for an empty list, or the first parse error |
| Roles.RevokeReadsBack | internal/clients/hana/privilege/privilege.go:144-146 | the statement scans back to exactly the requested names, in order |
| RoleNames.DelimitedRoleIff | internal/clients/hana/privilege/privilege.go:257-259 | FormatRoleStrings takes a delimited name for the role it means exactly when it is not qualified by a schema |
| RoleNames.BareRole | internal/clients/hana/privilege/privilege.go:257-259 | a bare name, with or without a dot, is taken for the role without schema that has the whole text as its name |
| RoleNames.RoleAcceptedIff | internal/clients/hana/privilege/privilege.go:427-441 | a role string is accepted exactly when it has the spelling of a role, and exactly which error the others get |
| RoleNames.ReadRole | internal/clients/hana/privilege/privilege.go:427-455 | a role string is read as spelled, whatever its white space and the case of its option |
| Examples.RoleExample | internal/clients/hana/privilege/privilege.go:427-455 | a role with blanks, a tab and an option in small letters, and what it is read as |
| RoleNames.JoinedNameIsOther | internal/clients/hana/privilege/privilege.go:202-206 | a role of a schema and the role without schema of the joined name are reported alike, and statements for this string name the second |
| RoleNames.LooksMetIsNot | internal/clients/hana/privilege/privilege.go:202-206 | a user who holds only the first where only the second is wanted looks as wanted and is not |
| Preprocess.TrimOuterDoubleQuotes | internal/utils/utils.go:19-63 | all branches amount to: trim space, strip one layer of quotes |
| Preprocess.PreprocessPrivilegeStrings | internal/utils/utils.go:80-89 | every string is trimmed and converted, in place |
| Preprocess.ConvertText | internal/utils/utils.go:67-77 | the conversion leaves canonical texts without quote and backslash in their identifiers alone |
| Preprocess.SlashesAreUndone | internal/utils/utils.go:67-77 | a text whose quotes are each written with a backslash converts to the text itself, whatever the text, also when the whole is wrapped in quotes |
| Preprocess.DoublingIsUndone | internal/utils/utils.go:67-77 | an identifier in doubled quotes converts to the identifier in single ones |
| Preprocess.PreprocessIdIff | internal/utils/utils.go:80-89 | preprocessing such a text is the identity exactly when it does not end in a Unicode space |
| Preprocess.WrappingIsUndone | internal/utils/utils.go:19-89 | wrapping such a text in quotes and preprocessing restores it |
| Preprocess.WrappedListFormats | internal/clients/hana/privilege/privilege.go:391-404 | formatting with preprocessing gives wrapped canonical strings back without their wrapping |
| RoleClient.NameReadsBack | internal/clients/hana/role/role_client.go:210-217 | a qualified name scans back to schema and role, whatever follows |
| RoleClient.QualifiedNameInjective | internal/clients/hana/role/role_client.go:210-217 | different pairs of schema and role, also with empty schema, have different names |
| RoleClient.AppendGroups | internal/clients/hana/role/role_client.go:102-106 | appending with commas and trimming the last gives the list joined by commas |
| RoleClient.GroupsReadBack | internal/clients/hana/role/role_client.go:101-107 | the LDAP clause scans back to exactly the groups, in order, for all strings |
| RoleClient.Create | internal/clients/hana/role/role_client.go:97-120 | the CREATE ROLE text of name, groups and options |
| RoleClient.CreateReadsBack | internal/clients/hana/role/role_client.go:97-120 | the whole statement scans back to name, groups, creator option and rolegroup |
| RoleClient.UpdateLdapGroups | internal/clients/hana/role/role_client.go:132-157 | one ALTER ROLE per non-empty list, adding first, ended by the first failure |
| RoleClient.AlterReadsBack | internal/clients/hana/role/role_client.go:134-152 | the role and the groups of an ALTER ROLE statement scan back |
| SetDiff.ArrayToSet | internal/utils/utils.go:168-174 | the keys are the elements of the list |
| SetDiff.SetToArray | internal/utils/utils.go:176-182 | each key once, in some order |
| SetDiff.MapDiff | internal/utils/utils.go:140-150 | exactly the entries missing or different in the second map |
| SetDiff.ArraysEqualWithDifference | internal/utils/utils.go:118-129 | the flag decides set equality; the difference is exact where it is computed |
| SetDiff.ArraysEqual | internal/utils/utils.go:99-102 | decides equality as sets, with duplicates and in any order |
| SetDiff.ArraysBothDiff | internal/utils/utils.go:104-116 | both exact differences without duplicates on both short cuts; taking one away and adding the other gives the first list |
| SetDiff.MapsBothDiff | internal/utils/utils.go:131-138 | the equality flag is right and the reported differences are always empty |
| Grants.GrantsJoin | internal/clients/hana/privilege/privilege.go:58-72 | any sequence of GRANT statements has the effect of all they grant together, whatever order and grouping |
| Grants.RevokesJoin | internal/clients/hana/privilege/privilege.go:119-125 | any sequence of REVOKE statements removes all they name together |
| Grants.PassEntries | internal/clients/hana/user/user_client.go:324-338 | after one pass exactly the desired grants that did not differ in their option are there |
| Grants.OnePassIff | internal/clients/hana/user/user_client.go:324-338 | one pass reaches the desired grants exactly when no grant differs only in its option |
| Grants.TwoPasses | internal/clients/hana/user/user_client.go:324-338 | two passes reach the desired grants from every catalogue, and the second revokes nothing |
| Grants.InconsistentNever | internal/clients/hana/user/user_client.go:324-338 | a list with a grant both with and without option is never reached |
| Grants.ShadowPasses | internal/clients/hana/user/user_client.go:324-354 | with grants that are seen as others and do not move: what two passes settle, and one, from every catalogue |
| Grants.SettledStays | internal/clients/hana/user/user_client.go:324-354 | what is settled is left alone by a further pass |
| Grants.NoShadow | internal/clients/hana/user/user_client.go:324-354 | without such grants a list can be settled exactly when no grant is listed with and without option |
| Grants.LaxPasses | internal/clients/hana/privilege/privilege.go:637-658 | passes that revoke only what is given up reach all that is listed exactly when no grant is stuck with an option that is not listed |
| Grouping.CollectNames | internal/clients/hana/privilege/privilege.go:593-612 | each key has the names of its privileges, in order |
| Grouping.GroupPrivileges | internal/clients/hana/privilege/privilege.go:593-630 | one group per key, in some order, printed from the key split again |
| Grouping.KeyFaithfulIff | internal/clients/hana/privilege/privilege.go:613-626 | splitting the joined key gives schema and object back exactly when the identifier has no dot |
| Grouping.DottedSchemaGoesElsewhere | internal/clients/hana/privilege/privilege.go:613-626 | with a dot in the schema the statement is a well-formed one on another object |
| Statements.ReachElsewhere | internal/clients/hana/privilege/privilege.go:613-626 | with a dot in the schema or special name the statement acts on the object that the split names, which is another one |
| Statements.ReadNames | internal/clients/hana/privilege/privilege.go:613-629 | a list of names with a target stands for each name with that target |
| Statements.GroupReads | internal/clients/hana/privilege/privilege.go:593-630 | the body of a group stands for exactly the texts of its privileges with their keys split again |
| Statements.GrantedTogether | internal/clients/hana/privilege/privilege.go:50-74 | together the groups grant exactly what the privileges are sent to, with their options |
| Statements.RevokedTogether | internal/clients/hana/privilege/privilege.go:113-127 | together the groups revoke exactly what the privileges are sent to |
| Statements.GroupedGrants | internal/clients/hana/privilege/privilege.go:50-74 | grouped GRANT statements in any order have the effect of granting all the privileges |
| Statements.GroupedRevokes | internal/clients/hana/privilege/privilege.go:113-127 | grouped REVOKE statements in any order remove exactly the grants of the privileges |
| Statements.GroupingPreservesGrants | internal/clients/hana/privilege/privilege.go:50-74 | grouped GRANT statements give the same database as one statement per privilege |
| Queries.GrantReadsBack | internal/clients/hana/privilege/privilege.go:58-72 | every GRANT text reads back to its body and its option, whatever body and grantee contain |
| Queries.RevokeReadsBack | internal/clients/hana/privilege/privilege.go:119-125 | every REVOKE text reads back to its body, and never as a GRANT |
| Queries.GroupQueryIs | internal/clients/hana/privilege/privilege.go:60-69 | the text for a privilege has its option: ADMIN OPTION exactly for system privileges, GRANT OPTION for all others |
| Queries.SingleQuery | internal/clients/hana/privilege/privilege.go:50-127 | the two texts for a single privilege, written out |
| Queries.TextsExecute | internal/clients/hana/privilege/privilege.go:50-127 | executing the texts of a grouping has the effect of executing the groups, up to any failure |
| Execution.EffectOf | internal/clients/hana/user/user_client.go:324-338 | statements that stop at the first failure grant a part, then revoke a part, and everything if none fails |
| Execution.UpdateEffect | internal/clients/hana/user/user_client.go:324-338 | grouping does not show in the effect of an update of groupable lists, also when a statement fails midway |
| Execution.ExecutingEffect | internal/clients/hana/user/user_client.go:324-338 | part of what the strings are sent to is granted, then part revoked, everything on success; no success and nothing revoked if a string to revoke does not parse |
| Execution.CanExecute | internal/clients/hana/privilege/privilege.go:50-127 | lists that parse can be executed without a failure |
| Execution.CannotExecute | internal/clients/hana/privilege/privilege.go:406-413 | and only those |
| UserClients.UserClient.GrantPrivileges | internal/clients/hana/privilege/privilege.go:50-74 | nothing if a text does not parse, otherwise the first GRANT texts of some grouping are executed, all if no failure |
| UserClients.UserClient.RevokePrivileges | internal/clients/hana/privilege/privilege.go:113-127 | the same for REVOKE |
| UserClients.UserClient.UpdatePrivileges | internal/clients/hana/user/user_client.go:324-338 | the GRANT texts up to a failure, then the REVOKE texts up to a failure, for every pair of lists |
| UserClients.UserClient.GrantRoles | internal/clients/hana/privilege/privilege.go:76-111 | the statements of GrantRoles are executed up to a failure, with the effect their text has |
| UserClients.UserClient.RevokeRoles | internal/clients/hana/privilege/privilege.go:129-147 | the same for REVOKE |
| UserClients.UserClient.UpdateRoles | internal/clients/hana/user/user_client.go:340-354 | some roles granted, then some revoked, all on success; nothing if a role to grant cannot be read, nothing revoked if one to revoke cannot |
| UserClients.UserClient.QueryPrivileges | internal/clients/hana/privilege/privilege.go:163-184 | the strings of exactly the catalogue rows of the granted privileges |
| UserClients.UserClient.QueryRoles | internal/clients/hana/privilege/privilege.go:186-213 | the strings of exactly the granted roles, schema and name joined by a dot |
| UserClients.GrantTexts | internal/clients/hana/privilege/privilege.go:97-109 | the texts of GrantRoles, read as statements, grant exactly the roles without schema of these names, with their options |
| UserClients.RevokeText | internal/clients/hana/privilege/privilege.go:144-146 | the text of RevokeRoles, read as a statement, revokes exactly the roles without schema of these names |
| UserControllers.FilterManagedPrivileges | internal/clients/hana/privilege/privilege.go:637-658 | strict keeps all, lax keeps what is listed or was managed but never the default privilege, another policy is an error |
| Execution.CarriedList | internal/clients/hana/privilege/privilege.go:406-413 | a duplicate-free list of carried strings parses exactly when each does, can then be grouped, and is sent to what its strings are sent to |
| UserControllers.UserController.BuildDesired | internal/controller/user/reconciler.go:591-612 | the canonical strings of exactly what the spec lists, with PUBLIC for a user that is not restricted and CREATE ANY on the own schema under strict (user names without quotes), or an error that changes nothing |
| UserControllers.UserController.Observe | internal/controller/user/reconciler.go:189-258 | a run of the relation Observed, or an error that changes nothing; an error if the spec cannot be formatted or the policy is unknown |
| UserControllers.UserController.UpdatePrivileges | internal/controller/user/reconciler.go:395-414 | the step of the model: the grouped statements of both differences, status rewritten exactly on success |
| UserControllers.UserController.UpdateRoles | internal/controller/user/reconciler.go:416-436 | the same for roles |
| UserControllers.UserController.UpdateParameters | internal/controller/user/reconciler.go:438-456 | no parameter of the account changes |
| UserControllers.UserController.UpdateUsergroup | internal/controller/user/reconciler.go:458-476 | the usergroup becomes the desired one only if it differs |
| UserControllers.UserController.UpdateLifetimeCheck | internal/controller/user/reconciler.go:513-529 | the lifetime check becomes the desired one only if it differs |
| UserControllers.UserController.UpdatePassword | internal/controller/user/reconciler.go:531-555 | password authentication is toggled, or the password set, only if it was found not up to date |
| UserControllers.UserController.Update | internal/controller/user/reconciler.go:332-375 | a run of the relation Updated in every state whose spec can be formatted: the steps in order, ended by the first failure |
| UserControllers.UserController.Reconcile | internal/controller/user/reconciler.go:189-375 | a reconciliation without error is a run of the relation Reconciled; one with an error has changed nothing, or has observed and then run an update that ended at a failing step |
| UserModel.UpdatedIff | internal/controller/user/reconciler.go:332-375 | the update as a path of steps and as steps ended by the first failure are the same |
| UserProgress.UpdatePossibleIff | internal/controller/user/reconciler.go:395-436 | an update can succeed exactly when every string it has to pass on can be read |
| UserProgress.CanReconcile | internal/controller/user/reconciler.go:189-375 | without obstruction every state of the setting has a failure-free reconciliation |
| UserProgress.ConvergesIff | internal/controller/user/reconciler.go:189-375 | after any run, two failure-free reconciliations that end up to date exist if and only if the lists can be settled and nothing obstructs |
| UserConvergence.ParseTexts | internal/clients/hana/privilege/privilege.go:163-184 | the strings of granted privileges parse back to exactly these grants |
| UserConvergence.TextsMinus | internal/controller/user/reconciler.go:395-397 | differences of sets of strings are differences of sets of grants |
| UserConvergence.WantedTexts | internal/controller/user/reconciler.go:591-612 | the canonical desired strings are the strings of exactly the grants the spec asks for |
| UserConvergence.DefaultIsCanonical | internal/clients/hana/privilege/privilege.go:632-634 | the default privilege of a user without quotes in the name is a canonical string for CREATE ANY on the own schema |
| Defaults.WantedRolesAre | internal/controller/user/reconciler.go:703-706 | the wanted roles are those read from the spec and PUBLIC without option, exactly if the user is not restricted |
| Defaults.WantedPrivilegesAre | internal/controller/user/reconciler.go:694-702 | the wanted privileges are those parsed from the spec and CREATE ANY on the own schema with its option, exactly under strict for a user that is not restricted, for user names without quotes |
| Defaults.DesiredIff | internal/controller/user/reconciler.go:591-612 | desired lists exist exactly when every string of the spec can be read, and are the strings of the wanted privileges and roles |
| UserConvergence.ObserveIsExact | internal/controller/user/reconciler.go:189-277 | under strict, Observe reports up to date exactly when the account looks so in its strings, in every state |
| UserConvergence.MetIff | internal/clients/hana/privilege/privilege.go:163-213 | what looks met is met exactly when every held grant has a text of its own and no held role has a schema |
| UserConvergence.PrivilegesPass | internal/controller/user/reconciler.go:395-414 | without obstruction the grouped statements have the effect of exactly one pass over what is seen, and what cannot be moved stays |
| UserConvergence.RolesPass | internal/controller/user/reconciler.go:416-436 | the role statements have the effect of exactly one pass over the roles without schema, where roles of a schema are seen under their joined names and stay |
| UserConvergence.UpdateIsExact | internal/controller/user/reconciler.go:332-375 | the account after a failure-free update without obstruction, field by field |
| UserRuns.UnattainableNever | internal/controller/user/reconciler.go:189-375 | no run, however long and whatever fails or interferes, meets a spec that is not attainable |
| UserRuns.ImmovableStays | internal/clients/hana/privilege/privilege.go:593-630 | an update, failing or not, leaves every held or wanted grant alone that cannot be moved |
| UserRuns.BlockedStays | internal/clients/hana/privilege/privilege.go:113-127 | a held grant whose text cannot be read blocks every update at its first step: no success, nothing revoked, nothing else touched, and it stays |
| UserRuns.ObstructedStays | internal/clients/hana/privilege/privilege.go:593-630 | an outstanding grant that cannot be read, is read as another, or has a dot in its schema or special name, survives every failure-free reconciliation |
| UserRuns.SchemaRoleStays | internal/clients/hana/privilege/privilege.go:76-147 | no update, failing or not, moves a role of a schema, whatever the spec, the policy and the status |
| UserRuns.ReconcileIsExact | internal/controller/user/reconciler.go:189-375 | a failure-free reconciliation without obstruction is one exact pass, and does nothing if the spec looks met |
| UserRuns.OneReconciliationIff | internal/controller/user/reconciler.go:332-375 | without obstruction one reconciliation makes the spec look met exactly when it can be settled, no option differs alone and the password needs one statement |
| UserRuns.TwoReconciliationsIff | internal/controller/user/reconciler.go:332-375 | from every state two reconciliations make the spec look met exactly when it can be settled and nothing obstructs, and meet it exactly when moreover no immovable grant is taken for another and no role of a schema is held |
| UserRuns.Converges | internal/controller/user/reconciler.go:189-375 | after any run of failures and foreign changes, two reconciliations make the next Observe report up to date if and only if the spec can be settled and no grant that cannot be moved is in the way; when it is then really met; and that nothing changes any more |
| UserRuns.PlainSettleable | internal/controller/user/reconciler.go:189-375 | where nothing is taken for something else, a spec can be settled exactly when it is attainable |
| CatalogueNames.MisreadPse | internal/clients/hana/privilege/privilege.go:295-314 | a privilege on the PSE A WITH GRANT OPTION and one on the PSE A with the option are reported alike |
| CatalogueNames.MisreadLooksMet | internal/clients/hana/privilege/privilege.go:661-746 | a user who holds only the first where only the second is wanted looks as wanted and is not |
| CatalogueNames.OnlyNormalLooks | internal/clients/hana/privilege/privilege.go:661-746 | where the catalogue shows names in capitals with single blanks, a spec looks met only if its names are of this form |
| CatalogueNames.NormalStays | internal/clients/hana/privilege/privilege.go:50-74 | and with such a spec an update leaves only names of this form |
| UserPassword.PasswordTerminates | internal/controller/user/reconciler.go:531-555 | Observe finds the password up to date exactly at rank 0; every successful update lowers the rank by one, from at most 2; a failing one leaves it |
| UserPassword.WithoutSecretNever | internal/clients/hana/user/user_client.go:164-181 | a password object without a secret reference is never up to date |
| LaxSafety.RevokesOnlyListed | internal/controller/user/reconciler.go:379-413 | in every run every string passed to revoke is the text of a privilege of an earlier spec and of none of the current one |
| LaxSafety.LaxRevokesExactly | internal/controller/user/reconciler.go:198-238 | after an Observe exactly what is granted, was managed and is no longer listed is revoked, never the default privilege |
| LaxSafety.UnsentUntouched | internal/controller/user/reconciler.go:379-413 | over every run a grant that no statement of a listed string names is the same at the end as at the start, unless somebody else changes it |
| LaxSafety.TouchesOnlyListedIff | internal/clients/hana/privilege/privilege.go:593-630 | never-listed grants are never touched, in any run listing only given strings, whether these read back or not, if and only if the statement of each names a listed grant |
| LaxSafety.OneListedIff | internal/clients/hana/privilege/privilege.go:601-620 | for one listed privilege: if and only if neither its schema nor its special name has a dot |
| LaxSafety.DotlessIsSafe | internal/clients/hana/privilege/privilege.go:601-620 | lists without dots never touch a grant that is not listed |
| LaxSafety.DottedRunRevokes | internal/clients/hana/privilege/privilege.go:593-630 | the run that revokes a never-listed grant: list a privilege with a dot in its schema, observe, remove it, update |
| LaxSafety.DenotedIsListed | internal/controller/user/reconciler.go:379-413 | where listed privileges are canonical, those strings denote only listed privileges |
| LaxConvergence.LaxObserveIsExact | internal/controller/user/reconciler.go:189-277 | under lax, Observe reports up to date exactly when all that is listed is held, nothing managed is left to revoke, the default privilege is not listed and the rest looks met, in every state |
| LaxConvergence.ReconciledStatus | internal/controller/user/reconciler.go:395-414 | after a failure-free reconciliation the status holds exactly the listed strings, so that nothing is left to revoke |
| LaxConvergence.LaxReconcile | internal/controller/user/reconciler.go:189-414 | without obstruction a failure-free reconciliation grants exactly what is missing and revokes exactly what is given up |
| LaxConvergence.LaxTwoReconciliationsIff | internal/controller/user/reconciler.go:189-375 | from every state two failure-free reconciliations make the spec look met exactly when the list can be settled |
| LaxConvergence.LaxConverges | internal/controller/user/reconciler.go:189-375 | after any number, at least two, of failure-free reconciliations Observe reports up to date if and only if the list could be settled at the start: what cannot is never reported so |
| LaxConvergence.FirstListedNever | internal/clients/hana/privilege/privilege.go:637-658 | a privilege first listed without its option while the user holds it with the option cannot be settled |
| LaxConvergence.LaxCanReconcile | internal/controller/user/reconciler.go:189-375 | with readable strings to revoke every state has a failure-free reconciliation |
| Pse.CertListDifference | internal/controller/personalsecurityenvironment/reconciler.go:272-287 | the nested loop returns, in order, the references that match none of the other list |
| Pse.NamelessMatchesNothing | internal/controller/personalsecurityenvironment/reconciler.go:289-292 | a reference without number and name, or with the empty name, matches nothing |
| Pse.SameIff | internal/controller/personalsecurityenvironment/reconciler.go:289-292 | a known reference matches a row, in either order, exactly when it means the same certificate |
| Pse.DifferencesDenote | internal/controller/personalsecurityenvironment/reconciler.go:206-207 | the two difference lists mean exactly the missing and the superfluous certificates |
| Pse.CertificateWork | internal/clients/hana/personalsecurityenvironment/personalsecurityenvironment_client.go:144-182 | one statement for numbers, one for names, an error for a reference with neither |
| Pse.WorkTouches | internal/clients/hana/personalsecurityenvironment/personalsecurityenvironment_client.go:144-182 | the statements of a goroutine touch exactly the certificates of its references |
| Pse.QuietIff | internal/clients/hana/personalsecurityenvironment/personalsecurityenvironment_client.go:92-182 | an update sends no statement exactly when the certificates are the desired ones and the provider is the desired one or none is asked for |
| Pse.AtEveryMoment | internal/clients/hana/personalsecurityenvironment/personalsecurityenvironment_client.go:92-117 | at every moment of every interleaving, whatever fails, nothing is lost that is there and desired and nothing appears that is neither |
| Pse.EveryInterleaving | internal/clients/hana/personalsecurityenvironment/personalsecurityenvironment_client.go:92-117 | every interleaving in which Update returns nil ends with exactly the desired certificates and provider |
| Pse.CanFinish | internal/clients/hana/personalsecurityenvironment/personalsecurityenvironment_client.go:92-117 | an update of known references can always return nil |
| Pse.CountIff | internal/controller/personalsecurityenvironment/reconciler.go:245-250 | references mean as many certificates as there are references exactly when they are distinct |
| Pse.UpToDateMeans | internal/controller/personalsecurityenvironment/reconciler.go:245-250 | the test says: equal numbers, every reference among the rows, same provider |
| Pse.UpToDateSound | internal/controller/personalsecurityenvironment/reconciler.go:245-250 | for distinct references the one-sided test decides equality; with duplicates it fails whenever the sets are equal |
| Pse.SettlesIff | internal/controller/personalsecurityenvironment/reconciler.go:195-228 | after a successful update the next Observe reports up to date exactly for distinct references and no provider to clear |
| Pse.DuplicateHidesDrop | internal/controller/personalsecurityenvironment/reconciler.go:245-250 | two references to one certificate make the test accept a superfluous certificate |
| AuditPolicies.PolicyController.Create | internal/clients/hana/auditpolicy/auditpolicy_client.go:82-101 | CREATE, then ENABLE if desired, up to a failure |
| AuditPolicies.PolicyController.RecreatePolicy | internal/clients/hana/auditpolicy/auditpolicy_client.go:103-115 | DROP, CREATE, then ENABLE, up to a failure |
| AuditPolicies.PolicyController.Alter | internal/controller/auditpolicy/reconciler.go:259-292 | the retention, then the enabled flag, each only if it differs, up to a failure |
| AuditPolicies.PolicyController.Update | internal/controller/auditpolicy/reconciler.go:229-297 | recreates or alters, as planned from the status |
| AuditPolicies.PolicyController.Read | internal/clients/hana/auditpolicy/auditpolicy_client.go:35-79 | the observation has exactly the actions and fields of the policy |
| AuditPolicies.PolicyController.Observe | internal/controller/auditpolicy/reconciler.go:153-196 | up to date exactly when the database holds the policy with the desired actions and fields |
| AuditPolicies.PolicyController.Reconcile | internal/controller/auditpolicy/reconciler.go:153-297 | the first statements of the plan are executed; on success the database holds the policy with the desired actions and fields; a panic exactly on a stuck policy |
| AuditPolicies.OneVerdict | internal/controller/auditpolicy/reconciler.go:342-356 | the verdict does not depend on the order of rows |
| AuditPolicies.CheckIs | internal/controller/auditpolicy/reconciler.go:342-356 | on what was read the comparison says up to date exactly for the policy with the desired actions and fields, and panics exactly on a stuck one |
| AuditPolicies.JudgedIff | internal/controller/auditpolicy/reconciler.go:153-196 | the verdict of an Observe, told from the policy in the database |
| AuditPolicies.PlanEmptyIff | internal/controller/auditpolicy/reconciler.go:229-297 | no statement is issued exactly when the policy has the desired actions and fields or is stuck |
| AuditPolicies.OneReconciliationIff | internal/controller/auditpolicy/reconciler.go:229-297 | one failure-free reconciliation reaches the policy with the desired actions and fields if and only if it is not stuck, from every state; a stuck one stays |
| AuditPolicies.Moments | internal/controller/auditpolicy/reconciler.go:198-297 | every statement of a plan changes the database, and what it leaves at every moment is the old policy, none, a new one or the old one with the desired retention |
| AuditPolicies.Recovers | internal/controller/auditpolicy/reconciler.go:198-297 | after any number of reconciliations interrupted at any statement, one failure-free reconciliation reaches the policy with the desired actions and fields |
| Pool.AlwaysValid | internal/clients/hana/hana.go:38-76 | the invariant of the pool holds after every interleaving |
| Pool.ExactlyOnePlace | internal/clients/hana/hana.go:38-76 | each opened handle is in exactly one place and is closed at most once |
| PoolCalls.ConnectAlone | internal/clients/hana/hana.go:38-76 | a whole call on any pool: the pooled handle if it answers, otherwise a new one that replaces and closes it, or an error |
| PoolCalls.SecondReuses | internal/clients/hana/hana.go:48-54 | from the empty pool, a second call whose ping succeeds returns the handle of the first; one handle is opened and none closed |
| PoolCalls.AlwaysExplained | internal/clients/hana/hana.go:38-76 | in every interleaving a call opens a handle only if it found none under its key or its ping failed, and returns one that it found under its key and that answered, or that it opened for its key |
| PoolCalls.EntriesAreOpened | internal/clients/hana/hana.go:66-75 | every handle in the map was opened for its key |
| Pool.ReturnedIsOpenIff | internal/clients/hana/hana.go:48-75 | a returned handle is open, and not about to be closed, exactly as long as it is in the map |
| Pool.ReturnedMayBeClosed | internal/clients/hana/hana.go:48-75 | a schedule from the empty pool in which a second call closes the handle the first has returned |
| Pool.Disconnect | internal/clients/hana/hana.go:78-97 | every value of the map is closed once more, then the map is empty |
| Pool.DisconnectAtOnceIff | internal/clients/hana/hana.go:78-97 | Range and Clear in one step close every handle, exactly once, if and only if no call holds a new handle and none waits to be closed |
| Pool.DisconnectIff | internal/clients/hana/hana.go:78-97 | with Connect calls between Range and Clear, every handle is closed at Clear if and only if none was put into the map since, none is held by a call and none waits to be closed for the first time |
| Pool.SwapDuringDisconnectLeaks | internal/clients/hana/hana.go:66-94 | a schedule from the empty pool in which a swap between Range and Clear leaves an open handle that is nowhere |

## Left out

- Go's regexp engine beyond leftmost-first matching, and Unicode case folding: letters are ASCII.
- SAP HANA itself: only the grant map, the policy, the certificate set and the account fields named above.
- Error texts, logging, Kubernetes conditions, events and the connection secrets; errors keep only their kind.
- User parameters beyond their never changing: filtering of keys and upper-casing in `transformParameters`.
- X.509 mappings of users: they are compared with a pointer inside, so a difference of lists does not mean a difference of mappings.
- Creation and deletion of users, and authentication errors during the credential check.
- A user without a usergroup: `USERGROUP_NAME` is NULL and cannot be read; the convergence theorem asks for a usergroup in the spec.
- The role reconciler: it does not canonicalise desired privileges; only the texts of its statements are modelled.
- Escaping of certificate names in PSE statements, which the source does not do; statements carry the certificates they denote.
- Creation of a PSE and a PSE without X509 purpose, which is not observed.
- Goroutines of a failed PSE update that are still running when the next update starts.
- Certificates, usergroups, rolegroups, schemas, X.509 providers and instance mappings: thin wrappers around single statements.
- The texts of the ALTER USER statements, with the UNSET USERGROUP branch, the filter of valid parameter keys and the flag for a forced password change: the client methods change one field of the account.
- UserControllers.UserController.Observe: authentication errors, absent users and X.509 mappings are not modelled.
- UserControllers.UserController.BuildDesired: upper-casing and filtering of parameters is not modelled.
- UserControllers.UserController.Update: the step for X.509 providers is not modelled.
- UserRuns.Converges: speaks about specs whose privileges are canonical and can stand in a list, with and without option, and about accounts whose strings, as far as they can be read, can stand in lists; a held string whose statement names a held or wanted grant that cannot be moved, by quotes inside a special name, is not covered.
- LaxConvergence.LaxConverges: speaks about such specs, and about strings to revoke of that kind; runs with failures in between are covered by starting after the last failure.
- LaxSafety.TouchesOnlyListedIff: speaks about listed strings that can stand in a list, as far as they can be read.
- Pool.Disconnect: `Range` is one step over the map, without the snapshot rules of `sync.Map` for entries stored meanwhile.
