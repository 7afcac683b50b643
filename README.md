# CRM backend core, modelled in Dafny

The system is the backend of a real-estate CRM: Express handlers over a
Prisma database for customers, contacts, follow-ups, message templates,
company projects, builder slides and administrator accounts. Most handlers
pass requests straight to the database; this project models the decision
and transformation logic inside them and proves what it promises:

- keyword search: the fence stripping in front of `JSON.parse`, the
  fail-open resolver that sanitises the classifier's `{tokens, fields}`
  reply against the twelve default fields or falls back to splitting the
  keyword on spaces, and the "AND over tokens, OR over fields" where-clause
  built from it (modules `Agent`, `KeywordSearch`, `Query`);
- the customer and contact controllers: `toBoolean`, de-duplication by
  contact number keeping the newest record, filter and listing pipelines,
  role checks per record, image-list updates and CustomerFields merging,
  contact assignment and bulk deletion (`CustomerController`,
  `ContactController`, `ImageLists`, `Accounts`);
- the two spreadsheet importers: phone cleaning and extraction, header-key
  normalisation, custom-field routing, valid/invalid and unique/duplicate
  partitioning, the import loops and the get-or-create cache (`Sheets`,
  `CustomerImport`, `ContactImport`);
- message templates: the `{{ key }}` placeholder substitution, target
  selection, the send loops and WhatsApp phone formatting (`Messages`),
  and the template controller (`TemplateController`);
- administrator accounts: the authentication middleware and role gates,
  and the signup, create, update, password, list, view and delete rules
  (`Auth`, `AdminController`);
- company projects, builder slides and follow-ups (`CompanyProjects`,
  `BuilderSliders`, `CustomerFollowups`, `ContactFollowups`, `Paging`);
- the request validators (`Validators`).

Shared modules: `Wrappers` (Option and Outcome), `Strings` (JavaScript
string operations: trim, split, lower-casing, `parseInt`, rendering of
numbers), `Js` (JavaScript values, truthiness and objects).

The database, the AI classifier, `JSON.parse`, bcrypt, JWT verification,
Cloudinary, the mailer and Twilio are parameters: in-memory records and
oracle functions (`parse`, `accepted`, `delivered`, `freshIds` and the
like) that stand for what those services answer. An HTTP refusal is an
`Outcome` carrying its status code. Where the code does something other
than its names or comments suggest, the model follows the code: the login check rejects only the
lower-case status "inactive" while updates store "Inactive"; an empty
filtered field list is not refilled; the contact importer strips "91"
even from a ten-digit number. Lemmas state each of these.

## Model

| member | source | states |
|---|---|---|
| Agent.StrippedHasNoFence | src/ai/agent.js:9-12 | the text handed to the parser holds no run of three backticks (so neither fence form) once both replacements have run |
| Agent.RemovalLeavesNoFence | src/ai/agent.js:11 | the global removal of three backticks, scanning left to right, leaves no run of three backticks behind |
| Agent.StripFencesIdempotent | src/ai/agent.js:9-12 | cleaning a cleaned reply changes nothing |
| Agent.SafeJsonParse | src/ai/agent.js:5-20 | a missing or empty reply gives null; otherwise the parse of the cleaned text, and null when that parse throws |
| Agent.Request | src/ai/agent.js:29 | the request starts with the classifier instructions and ends with the user's input verbatim |
| Agent.KeywordSearchAgent | src/ai/agent.js:23-43 | the agent rejects exactly when the model call fails or its text is missing or blank; otherwise it resolves to the safe parse of that text |
| Agent.UpperCaseTagKept | src/ai/agent.js:9-12 | a reply fenced with an upper-case `JSON` tag keeps the tag after cleaning |
| Agent.UpperCaseTagDefeatsParse | src/ai/agent.js:14-19 | such a reply fails to parse and the agent's result is null |
| KeywordSearch.KeepTruthy | src/ai/getKeywordSearchData.js:31 | the kept tokens are exactly the truthy entries of the reply's token list |
| KeywordSearch.KeepTruthyConcat | src/ai/getKeywordSearchData.js:31 | filtering a concatenation filters each part in order; with the one-entry case this fixes the order and the repetitions of the kept tokens |
| KeywordSearch.KeepDefaultFields | src/ai/getKeywordSearchData.js:32 | the kept fields are exactly the reply's string entries that are among the twelve searchable fields |
| KeywordSearch.KeepDefaultFieldsConcat | src/ai/getKeywordSearchData.js:32 | filtering a concatenation filters each part in order; with the one-entry case this fixes the order and the repetitions of the kept fields |
| KeywordSearch.FallbackTokens | src/ai/getKeywordSearchData.js:36 | the fallback tokens are non-empty and hold no space |
| KeywordSearch.Fallback | src/ai/getKeywordSearchData.js:34-41 | the fallback directive's tokens are exactly the fallback tokens (the keyword split on single spaces, empty pieces dropped), in order, as text, all truthy; its fields are all twelve default fields |
| KeywordSearch.GetKeywordSearchData | src/ai/getKeywordSearchData.js:19-43 | an unusable reply (rejected, not an object, tokens or fields not arrays) takes the fallback; a usable one is filtered; fields are always among the defaults |
| KeywordSearch.ResolveKeyword | src/ai/getKeywordSearchData.js:19-43 | the whole resolution only names default fields, and a failed model call gives the fallback |
| KeywordSearch.EmptyFieldsNotRefilled | src/ai/getKeywordSearchData.js:32 | a usable reply naming no known field yields an empty field list, not the defaults |
| KeywordSearch.NoDefaultFieldKept | src/ai/getKeywordSearchData.js:32 | a field list without any known field filters to nothing |
| KeywordSearch.NullReplyFallsBack | src/ai/getKeywordSearchData.js:23-28 | a null result or a rejected agent falls back |
| KeywordSearch.PromptFieldsAllowed | src/ai/getKeywordSearchData.js:4-17 | every field the classifier is shown is searchable; CustomerDate is searchable but never shown |
| KeywordSearch.FallbackJoinIsCollapsed | src/ai/getKeywordSearchData.js:36 | the fallback tokens joined by single spaces are the keyword with outer spaces dropped and inner space runs collapsed |
| KeywordSearch.CollapseFromSplit | src/ai/getKeywordSearchData.js:36 | the character-level collapse equals the split-and-filter words, joined |
| KeywordSearch.NoSpaceSingleToken | src/ai/getKeywordSearchData.js:36 | a non-empty keyword without a space is one token |
| Accounts.RecordRefusal | src/controllers/controller.customer.js:557-563 | a record is refused (403) exactly when a user is not its assignee or a city administrator's city differs from the record's |
| Auth.TokenOf | src/middlewares/auth.js:10 | a non-empty `token` header wins; otherwise the cookie is used |
| Auth.ProtectRoute | src/middlewares/auth.js:8-66 | the request passes exactly when a token is present, verifies, names a stored account and that account's status is not lower-case "inactive"; the account passed on is the stored one; 401 without a token and for a token that does not verify, 500 when the verifier itself fails, 404 for an unknown account, 403 for an inactive one |
| Auth.CapitalisedInactivePasses | src/middlewares/auth.js:41-43 | an account whose status is "Inactive" (the value the rest of the system writes) is not stopped by the deactivation check |
| Auth.IsAdministrator | src/middlewares/auth.js:69-87 | the gate passes exactly for the administrator role, else 403 |
| Auth.IsCityAdminOrAbove | src/middlewares/auth.js:90-108 | the gate passes exactly for administrators and city administrators, else 403 |
| Auth.AdministratorGateIsStricter | src/middlewares/auth.js:69-108 | whoever passes the administrator gate passes the city-admin gate, and the converse holds for everyone but city administrators |
| Auth.CanManageAdmin | src/middlewares/auth.js:112-169 | the target is the route id, else the body's adminId; 400 without one, 404 for an unknown one; a known target is accepted exactly when the current account may manage it, and the accepted target is the stored account; otherwise 403 |
| Auth.TargetId | src/middlewares/auth.js:114 | a non-empty route id wins; otherwise the body's adminId is the target |
| Auth.CanManageAdminExact | src/middlewares/auth.js:130-159 | for a known target, access is granted exactly when administrators, same-city city administrators over users, or the user themselves manage it; otherwise 403 |
| AdminController.Transform | src/controllers/controller.admin.js:8-14 | null stays null; otherwise the record gains `_id` (the id, unless the record already had `_id`), loses `id` and `password`, and keeps every other field |
| AdminController.TransformIdempotent | src/controllers/controller.admin.js:8-14 | transforming a transformed record changes nothing |
| AdminController.SignupRefusal | src/controllers/controller.admin.js:19-43 | each check pins its own status: 400 for missing details, else 403 for a second administrator, else 409 for a taken e-mail, else 400 for a city or user account without a city; accepted exactly when none applies |
| AdminController.NewRecord | src/controllers/controller.admin.js:45-56 | the stored account has the new id and the e-mail as sent, and a city exactly when a truthy one was sent |
| AdminController.CreateRefusal | src/controllers/controller.admin.js:89-109 | 403 for a caller that is neither administrator nor city administrator, and for a city administrator creating anything but a user of exactly its own city; once the role rules pass, 400 for missing details, else 409 for a taken e-mail, else 400 for a city-bound role without a city; accepted exactly when none applies |
| AdminController.CitylessCityAdminCreatesNobody | src/controllers/controller.admin.js:96-97 | a city administrator without a city can create nobody unless the request sends `null` as the city |
| AdminController.LoginRefusal | src/controllers/controller.admin.js:145-166 | 400 without e-mail or password, else 404 for an unknown e-mail, else 403 for the status "inactive" (lower case only), else 401 for a wrong password; login succeeds exactly when none applies |
| AdminController.DeactivatedAccountStillLogsIn | src/controllers/controller.admin.js:157-159 | an account with status "Inactive", the value updates write, still logs in |
| AdminController.UpdateRefusal | src/controllers/controller.admin.js:232-245 | a city administrator may change only users of its city and a user only itself; otherwise 403 |
| AdminController.UnknownRoleUnrestricted | src/controllers/controller.admin.js:233-245 | a role outside the three is not restricted by the update rule |
| AdminController.OpenUpdates | src/controllers/controller.admin.js:247-264 | name and address lines are copied when truthy, phone when defined, e-mail when truthy unless another account holds it (409); nothing else is written |
| AdminController.BuildUpdates | src/controllers/controller.admin.js:247-275 | as above; 409 exactly when a truthy e-mail is taken; city and status only for an administrator, who gets each exactly when it is truthy; status only "Active" or "Inactive", 400 exactly for another truthy status from an administrator |
| AdminController.PasswordRefusal | src/controllers/controller.admin.js:304-352 | a falsy new password, or one whose length is under six, is refused with 400 before the lookup, while a truthy value without a length passes that check; then 404, 403 under the update rule, 400 and 401 where the current password is asked for; an accepted change has a text password, a known target the caller may update and, where asked for, the matching current password; a non-text password fails when hashed (500) |
| AdminController.NumericPasswordReachesHashing | src/controllers/controller.admin.js:304-347 | a numeric new password passes the length check and is refused only by the hashing, after the lookup (404 for an unknown target) |
| AdminController.CityAdminNeverAskedForCurrentPassword | src/controllers/controller.admin.js:319-340 | a city administrator changing a user of its city is never asked for the current password |
| AdminController.ListScope | src/controllers/controller.admin.js:381-394 | an administrator's listing is filtered by the given role, city and status; a city administrator sees the users of its city; a user only itself; every other role is refused, and only with 403 |
| AdminController.ViewRefusal | src/controllers/controller.admin.js:422-440 | 404 for an unknown account; a city administrator sees itself and users of its city, a user only itself, an administrator and any role outside the three everyone; every refusal of a known account is 403 |
| AdminController.DeleteRefusal | src/controllers/controller.admin.js:462-480 | 403 unless an administrator asks, then 404 for an unknown account, then 400 for the last administrator; the deletion is allowed exactly when none of these applies |
| AdminController.DeletionKeepsAnAdministrator | src/controllers/controller.admin.js:472-484 | an accepted deletion never removes the last administrator |
| AdminController.AdminTable.Signup | src/controllers/controller.admin.js:19-65 | 201 exactly when the signup checks pass, and then the table gains the new record; otherwise the table is unchanged; an administrator, once present, stays |
| AdminController.AdminTable.Delete | src/controllers/controller.admin.js:457-489 | 200 exactly when the deletion checks pass, and then only the target leaves the table; an administrator, once present, stays |
| CustomerController.ToBoolean | src/controllers/controller.customer.js:187-199 | only booleans and text give a value; a boolean is returned as it is |
| CustomerController.ToBooleanOfText | src/controllers/controller.customer.js:192-196 | text that is "true" or "false" in any letter case, padded with white space, gives that boolean |
| CustomerController.ToBooleanOfTrimmed | src/controllers/controller.customer.js:192-196 | text whose lower-cased, trimmed form is one of the two words gives that boolean |
| CustomerController.ToBooleanOnlyWords | src/controllers/controller.customer.js:187-199 | every other value, including numbers and empty text, gives undefined |
| CustomerController.Numbers | src/controllers/controller.customer.js:208-209 | the numbers the scan looks at are the non-empty contact numbers, all of them |
| CustomerController.Kept | src/controllers/controller.customer.js:210-222 | the record the scan holds for a number carries that number |
| CustomerController.KeptIsFirstNewest | src/controllers/controller.customer.js:205-226 | the record kept for a number is the newest one by updatedAt (else createdAt), the earliest among equally new ones, and exists exactly when some record has the number |
| CustomerController.NewestPerNumber | src/controllers/controller.customer.js:205-226 | one record per distinct non-empty number, in first-appearance order, each the kept record |
| CustomerController.NewestPerNumberMeaning | src/controllers/controller.customer.js:205-226 | no empty number, no number twice, every non-empty input number represented, each output record the newest input record with its number |
| CustomerController.DeduplicateByContact | src/controllers/controller.customer.js:205-226 | the map-based loop returns exactly the specified de-duplication |
| CustomerController.ColumnClauses | src/controllers/controller.customer.js:277-292 | at most one clause per filter parameter |
| CustomerController.ColumnClausesMeaning | src/controllers/controller.customer.js:277-292 | a row passes the column filters exactly when its column contains each supplied, trimmed parameter; omitted and empty parameters do not filter |
| CustomerController.RoleClauses | src/controllers/controller.customer.js:268-272 | a city administrator's listing keeps City containing its city, a user's keeps its own assignments, other roles are unrestricted; a city administrator without a city fails |
| CustomerController.TextTokens | src/controllers/controller.customer.js:302-308 | the tokens can be used as text exactly when all are strings, and then unchanged |
| CustomerController.BuildCustomerWhere | src/controllers/controller.customer.js:259-352 | a row passes the listing's where exactly when it passes the role clause, every supplied column filter and the keyword clause; failures are 500 |
| CustomerController.KeywordClause | src/controllers/controller.customer.js:297-309 | an absent or blank keyword adds no condition |
| CustomerController.DirectiveClause | src/controllers/controller.customer.js:302-308 | the keyword clause exists exactly when every token is text |
| CustomerController.DirectiveClauseMeaning | src/controllers/controller.customer.js:302-308 | a row passes the keyword clause exactly when every token occurs in at least one of the directive's fields |
| CustomerController.OrderBy | src/controllers/controller.customer.js:354-362 | ascending creation time exactly when `sort` lower-cases to "asc"; otherwise newest update, then newest creation |
| CustomerController.Window | src/controllers/controller.customer.js:375-393 | the read rows are a prefix of the ordered rows after `Skip`, at most three times Limit of them when a Limit is given, all of them otherwise |
| CustomerController.AssignedTo | src/controllers/controller.customer.js:463-465 | the kept rows are exactly those assigned to one of the matched accounts |
| CustomerController.Take | src/controllers/controller.customer.js:530-532 | at most `n` rows, a prefix, all rows when there are no more than `n` |
| CustomerController.ListCustomers | src/controllers/controller.customer.js:442-532 | with a User filter the assigned rows of the window are returned unshortened; otherwise the window is de-duplicated unless a ContactNumber filter is given, then cut to Limit |
| CustomerController.ListingHasDistinctNumbers | src/controllers/controller.customer.js:526-532 | without those filters a listing has at most Limit rows and never repeats a contact number |
| CustomerController.GetCustomerById | src/controllers/controller.customer.js:548-569 | 404 when absent; otherwise the record exactly when the role rule allows it, 403 otherwise |
| CustomerController.CityAdminListsMoreThanItOpens | src/controllers/controller.customer.js:268-269 | a city administrator of "Pune" lists a "Pune East" customer but is refused opening it, since listing uses `contains` and opening uses equality (lines 561-562) |
| CustomerController.StoredImages | src/controllers/controller.customer.js:11-21 | absent, empty or unparseable stored text is no images; text that parses to something other than an array is refused; otherwise exactly the text entries of the parsed array |
| CustomerController.StrItems | src/controllers/controller.customer.js:958-969 | the text entries of a list, exactly |
| CustomerController.DeleteCustomer | src/controllers/controller.customer.js:1100-1142 | 404 when absent, 403 under the role rule, 500 when a stored list is not an array, and success exactly otherwise; the destroyed paths are, in order, "customer/customer_images/<public id>" for each stored image and then "customer/site_plans/<public id>" for each site plan |
| CustomerController.RemovalList | src/controllers/controller.customer.js:886-889 | a falsy parse removes nothing, an array removes its text entries, non-empty text fails |
| CustomerController.FieldEntries | src/controllers/controller.customer.js:903-907 | falsy custom fields give none, an object gives its entries, text that does not parse fails |
| CustomerController.Overlay | src/controllers/controller.customer.js:909-919 | the merged custom fields keep every stored key and take a sent value exactly for active field names that were sent |
| CustomerController.MergeKeepsFields | src/controllers/controller.customer.js:909-919 | an update never drops a custom field and never changes an inactive one |
| CustomerController.CleanUpdateData | src/controllers/controller.customer.js:1063-1075 | the written columns are the body's keys minus the removal and computed keys, plus both flags as `toBoolean` of what was sent, with blank relation ids turned to null |
| CustomerController.UpdateCustomer | src/controllers/controller.customer.js:851-1097 | 404, then 500 for unparseable custom fields, then 403 from the role rule, then 500 for a removal list sent as text or for a stored image value that is not an array when the update touches it (a removal list with any entry, text or not, a clear, or an upload); an accepted update writes both image columns as the column step computes them, the merged custom fields, the cleaned columns, and forces updatedAt unless the body holds only isChecked; the destroyed paths are those of the image column followed by those of the site-plan column |
| CustomerController.RemovalListRequested | src/controllers/controller.customer.js:955-971 | a non-empty removal list asks for a removal; `[123]` asks for one while removing nothing |
| CustomerController.UpdateColumn | src/controllers/controller.customer.js:955-1057 | one image column: refused exactly when the stored value is not an array and the raw removal list has any entry, a clear is asked for or something is uploaded; otherwise the new column and its destroyed paths as the composition defines them, nothing destroyed when the stored value is left as it is |
| Query.AnyFieldContains | src/controllers/controller.customer.js:304-306 | the OR clause has one `contains` per field, in order, each for the token |
| Query.TokensInFields | src/controllers/controller.customer.js:302-308 | the AND clause has one OR clause per token, in order |
| Query.AnyFieldContainsMeaning | src/controllers/controller.customer.js:304-306 | a row passes the OR clause exactly when some listed field contains the token |
| Query.TokensInFieldsMeaning | src/controllers/controller.customer.js:302-308 | a row passes the keyword clause exactly when every token occurs in at least one of the fields |
| Query.NoFieldsMatchNothing | src/controllers/controller.customer.js:302-308 | with an empty field list and at least one token, no row matches |
| ImageLists.PublicIdFromUrl | src/controllers/controller.customer.js:34-42 | a public id exists exactly for text; anything else throws inside and gives null |
| ImageLists.PublicIdOfFile | src/controllers/controller.customer.js:34-42 | for `<dir>/<name>.<ext>` the public id is `name` |
| ImageLists.SafeParse | src/controllers/controller.customer.js:23-32 | undefined, null and empty text give undefined; an array is returned as it is |
| ImageLists.ClearOnlyWhenSentEmpty | src/controllers/controller.customer.js:989-1005 | a list is cleared only when the client sent an empty array (as an array or as text that parses to one); an omitted field or unparseable text never clears |
| ImageLists.Without | src/controllers/controller.customer.js:967-969 | the filtered list keeps exactly the images not listed for removal |
| ImageLists.ComposedMeaning | src/controllers/controller.customer.js:955-1057 | a URL ends up in the list exactly when it was uploaded now or kept (no clear, not removed); the uploads come last and in order |
| ImageLists.DestroyPaths | src/controllers/controller.customer.js:958-964 | at most one destroy per URL, exactly one when blank ids are not skipped |
| ImageLists.DestroyPathsAt | src/controllers/controller.customer.js:958-964 | without skipping, the i-th destroyed path is the folder, "/", and the public id of the i-th URL |
| ImageLists.DestroyPathsCover | src/controllers/controller.customer.js:958-964 | every listed URL with a public id, and every listed URL when blank ids are not skipped, has its path destroyed |
| ImageLists.DestroyPathsConcat | src/controllers/controller.customer.js:958-964 | the paths of a list are the paths of its parts, in order |
| ImageLists.UpdateImageList | src/controllers/controller.customer.js:955-1057 | the step-by-step handler produces the composed list, and destroys the paths of the removed URLs followed, on a clear, by those of the URLs still held |
| ContactController.ToEmptyString | src/controllers/controller.contact.js:13-16 | every falsy value becomes empty text; a truthy value is kept as it is |
| ContactController.ToEmptyStringIdempotent | src/controllers/controller.contact.js:13-16 | applying it twice equals applying it once, and it changes only falsy values other than empty text |
| ContactController.ContactClausesMeaning | src/controllers/controller.contact.js:164-202 | the role clauses, the column filters and the keyword clause together hold of a row exactly when the row matches every supplied filter |
| ContactController.GetContactWhere | src/controllers/controller.contact.js:164-216 | fails only for a city administrator without a city; otherwise a row satisfies the built AND list exactly when it passes the role rule, each supplied Campaign, ContactType, City and Location filter, and the keyword |
| ContactController.UserMatch | src/controllers/controller.contact.js:242-254 | the account search has a fourth, role-equality clause exactly when the lower-cased text is admin, city_admin or user, and it compares the role with the text as given |
| ContactController.CapitalisedRoleWordMatchesNoRole | src/controllers/controller.contact.js:248-250 | "User" adds the role clause, but that clause matches no account whose role is "user" |
| ContactController.AssignedContacts | src/controllers/controller.contact.js:256-260 | keeps exactly the contacts assigned to one of the matched accounts; unassigned contacts never pass |
| ContactController.AssignedContactsConcat | src/controllers/controller.contact.js:258-260 | filtering a concatenation filters each part in order, so the kept contacts keep the listing order |
| ContactController.ListContacts | src/controllers/controller.contact.js:230-261 | never more rows than Limit; without a User filter the first Limit rows in order; with one, exactly the rows among the first Limit that are assigned to a matched account |
| ContactController.OpenContact | src/controllers/controller.contact.js:271-289 | 404 when the contact is absent; otherwise the record comes back exactly when the caller may touch it, and every refusal is 403 |
| ContactController.AssignOnCreate | src/controllers/controller.contact.js:295-304 | a user always becomes the assignee; other callers keep the body's AssignToId; every other key is stored as sent |
| ContactController.TextIds | src/controllers/controller.contact.js:402-404 | the ids selected are exactly the text entries of the id list |
| ContactController.AssignContact | src/controllers/controller.contact.js:383-446 | 400 without a non-empty id array and a truthy assignee id, then 404 for an unknown assignee or when no listed contact exists; success exactly when the caller is not a user and, for a city administrator, every found contact and the assignee share its city ignoring case; otherwise 403; the assigned ids are the listed ones |
| ContactController.AssignIgnoresCaseOpenDoesNot | src/controllers/controller.contact.js:271-289 | the administrator of "Pune" may assign a contact whose City is "PUNE" but may not open it (see also controller.contact.js:409-428) |
| ContactController.BulkAssignCity | src/controllers/controller.contact.js:459-496 | 403 for anyone but a city administrator, else 404 for an unknown assignee, else 403 when the assignee's city differs ignoring case; succeeds exactly when none applies, and then reassigns exactly the contacts whose City equals the administrator's as stored |
| ContactController.InCity | src/controllers/controller.contact.js:484-491 | the ids returned are exactly those of the contacts in the given city |
| ContactController.Listed | src/controllers/controller.contact.js:516-527 | the ids returned are exactly the requested ids that name a stored contact |
| ContactController.AllIds | src/controllers/controller.contact.js:528-537 | the id of every stored contact, position by position |
| ContactController.Remaining | src/controllers/controller.contact.js:546-551 | the contacts left are exactly the stored ones whose id was not deleted |
| ContactController.DeleteAllContacts | src/controllers/controller.contact.js:503-564 | 403 for anyone but an administrator; with a non-empty id array deletes exactly the listed stored contacts, else every contact; 404 and nothing deleted exactly when that selection (the listed ids of stored contacts, or the whole store) is empty; the reported ids are exactly those removed |
| Paging.PageOrDefault | src/controllers/controller.template.js:104-108 | a page or limit is the parsed number when it is at least 1, and the default (1 or 10) when it is absent, not numeric or below 1 |
| Paging.AtLeastOne | src/controllers/controller.cusfollowup.js:122-136 | an absent parameter takes its default; a numeric one is at least 1 and kept when already at least 1; a non-numeric one stays NaN |
| Paging.FollowupPage | src/controllers/controller.confollow.js:119-133 | page and limit are at least 1 whenever numeric, and 1 and 10 when absent |
| Paging.NonNumericNotDefaulted | src/controllers/controller.cusfollowup.js:135 | a page of "abc" stays NaN instead of falling back to 1, unlike the template listing |
| Paging.TotalPages | src/controllers/controller.template.js:156 | the page count is zero exactly when there are no rows, and is the least count whose pages hold every row |
| Paging.PagesCoverRows | src/controllers/controller.template.js:110 | every page up to the last skips fewer rows than there are, and any page after the last skips all of them (see also controller.template.js:156) |
| Paging.Somes | src/controllers/controller.cusfollowup.js:148-178 | a filter object has no clause exactly when none of its keys was assigned |
| Paging.SomesMeaning | src/controllers/controller.cusfollowup.js:148-178 | a row passes a filter object exactly when every assigned key's clause holds |
| Paging.Attached | src/controllers/controller.cusfollowup.js:188-190 | an empty filter object is left out, and leaving it out filters exactly as the empty object would |
| CustomerFollowups.ColumnEntry | src/controllers/controller.cusfollowup.js:151-157 | a key is set exactly when its parameter is non-empty, to a contains of the trimmed text |
| CustomerFollowups.CustomerFilter | src/controllers/controller.cusfollowup.js:148-178 | the column keys follow their parameters, PropertyType searching CustomerType; a user's own id replaces any User name filter; the OR key exists exactly when a keyword is given |
| CustomerFollowups.PassingCustomer | src/controllers/controller.cusfollowup.js:148-178 | a customer passing the filter satisfies its assignee and keyword clauses |
| CustomerFollowups.FollowupsWhere | src/controllers/controller.cusfollowup.js:140-198 | StatusType is matched trimmed exactly when given; a follow-up passes exactly when its StatusType matches and its customer contains every supplied Campaign, PropertyType (in CustomerType), CustomerSubType, City and Location text, is assigned to the caller when the caller is a user and otherwise to a name containing the User text, and holds the keyword in customerName, ContactNumber, Email, City or Location |
| CustomerFollowups.FollowupUpdate | src/controllers/controller.cusfollowup.js:293-302 | the update holds exactly those of StartDate, StatusType, FollowupNextDate and Description that were sent truthy, with their values unchanged |
| CustomerFollowups.UpdateNeverBlanks | src/controllers/controller.cusfollowup.js:297-301 | a falsy value (empty text, null) is never written, so an update cannot blank a field |
| CustomerFollowups.TransformedTexts | src/controllers/controller.cusfollowup.js:10-78 | each customer and follow-up text column is the value when truthy and "" otherwise; without a customer every customer column is "" and the assignee is null; with one the assignee is its AssignTo when truthy and null otherwise |
| ContactFollowups.ContactFilter | src/controllers/controller.confollow.js:140-168 | the column keys follow their parameters, PropertyType searching ContactType; a user's own id replaces any User name filter; the OR key exists exactly when a keyword is given |
| ContactFollowups.PassingContact | src/controllers/controller.confollow.js:140-168 | a contact passing the filter satisfies its assignee and keyword clauses |
| ContactFollowups.ConFollowupsWhere | src/controllers/controller.confollow.js:136-186 | StatusType is matched trimmed exactly when given; a follow-up passes exactly when its StatusType matches and its contact contains every supplied Campaign, PropertyType (in ContactType), City and Location text, is assigned to the caller when the caller is a user and otherwise to a name containing the User text, and holds the keyword in Name, Email, CompanyName, City or Location |
| ContactFollowups.ConFollowupUpdate | src/controllers/controller.confollow.js:256-265 | every body key other than contact passes through unchanged; a truthy contact becomes a relation connect to that id, a falsy one is dropped |
| ContactFollowups.TransformConFollowup | src/controllers/controller.confollow.js:8-71 | the nested contact is null exactly when there is no contact; each nested and each flattened column is the value when truthy and "" otherwise; the assignee is the contact's AssignTo when truthy and null otherwise |
| ContactFollowups.TransformConFollowupById | src/controllers/controller.confollow.js:73-83 | the response carries the contact id in place of the contact, the follow-up id as _id, and __v 0 |
| TemplateController.CreateTemplate | src/controllers/controller.template.js:20-97 | 400 exactly when name, type or body is falsy, else 409 exactly when the name is taken; the stored record has name, type and body as sent, subject and description as sent unless undefined (then ""), status as sent unless undefined (then "Active"), the uploaded URLs in order as its images, and "system" as creator, since the `req.user` the handler reads is never set (the authentication middleware sets `req.admin`) |
| TemplateController.TemplateWhere | src/controllers/controller.template.js:115-134 | no AND list exactly when type is empty and the search is blank |
| TemplateController.TemplateWhereMeaning | src/controllers/controller.template.js:115-134 | a template passes exactly when it has the given type and, for a non-blank search, holds the untrimmed search text in name, body or subject ignoring case |
| TemplateController.TypeFilterMeaning | src/controllers/controller.template.js:119-121 | the type filter holds exactly when no type was given or the template's type equals it |
| TemplateController.SearchFilterMeaning | src/controllers/controller.template.js:123-131 | the search filter holds exactly when the search is blank or the text occurs in name, body or subject ignoring case |
| TemplateController.TemplatePage | src/controllers/controller.template.js:104-110 | page and limit are at least 1, taking 1 and 10 unless they parse to at least 1 |
| TemplateController.ExistingImages | src/controllers/controller.template.js:216-223 | the parsed stored value (or "[]" when it is empty) when that is an array; when parsing fails, the stored array as it is; otherwise no images |
| TemplateController.FirstImagePath | src/controllers/controller.template.js:226-245 | a removal destroys at most one image, the first stored one, and does so exactly when it is text with a non-empty public id |
| TemplateController.UpdateTemplate | src/controllers/controller.template.js:178-298 | 404 for an unknown template with nothing destroyed; the forbidden keys are never written and other keys pass through; a removal destroys exactly the first stored image's path and empties the list, and nothing is destroyed without one; a removal whose first stored image is truthy but not text fails with 500; an upload with removal fails with 400 after that destruction; otherwise an upload becomes the one-element list |
| TemplateController.FirstImagePathOfFile | src/controllers/controller.template.js:226-242 | for a stored `.../<name>.<ext>` the path destroyed is `templates/whatsapp_images/<name>` |
| Sheets.NormalizedMeaning | src/controllers/customerImportController.js:54-62 | a mapped key is present exactly when some header maps to it, and holds the converted value of the last such header |
| Sheets.LongOnly | src/controllers/customerImportController.js:49 | exactly the pieces with at least ten characters are kept |
| Sheets.LongOnlyConcat | src/controllers/customerImportController.js:49 | the filter works piece by piece, so the kept pieces keep their order and repetitions |
| Sheets.LongDistinct | src/controllers/customerImportController.js:49-50 | the distinct long pieces are exactly the long pieces, each once, in the order of their first occurrence |
| Strings.DedupOrder | src/controllers/customerImportController.js:50 | `[...new Set(xs)]` lists its elements in the order of their first occurrence in xs |
| Strings.DedupFirst | src/controllers/customerImportController.js:50 | the first element of a non-empty list is the first of its de-duplication |
| Sheets.KeptMeaning | src/controllers/contactImportController.js:223-249 | every prepared contact comes from a row, and every row that is not skipped contributes its contact |
| Sheets.AcceptedAndRefused | src/controllers/customerImportController.js:576-628 | every insert tried is either accepted or refused, so the two lists together are as long as the rows tried |
| CustomerImport.CleanNumber | src/controllers/customerImportController.js:36-41 | the cleaned number holds digits only, and is empty for a falsy value |
| CustomerImport.Cleaned | src/controllers/customerImportController.js:48 | each piece is cleaned, position by position |
| CustomerImport.ExtractedList | src/controllers/customerImportController.js:44-51 | none for a falsy value; otherwise exactly the cleaned pieces of at least ten digits, each once, in the order of their first occurrence; all digits |
| CustomerImport.ExtractedFirst | src/controllers/customerImportController.js:157-158 | the first extracted number, the one a row keeps, is the first long cleaned piece |
| CustomerImport.ExtractNumbersPieces | src/controllers/customerImportController.js:44-51 | the joined text is empty exactly when no number was found, and splitting it on "," gives back exactly the extracted numbers (see also customerImportController.js:157-158) |
| CustomerImport.FirstPhone | src/controllers/customerImportController.js:157-158 | a row's ContactNumber is the first extracted number, or "" when there is none |
| CustomerImport.FinalKeyIgnoresCaseAndPadding | src/controllers/customerImportController.js:57-58 | two headers equal up to letter case and surrounding white space map to the same key whenever a mapping applies |
| CustomerImport.NormalizeKeys | src/controllers/customerImportController.js:54-62 | the loop builds exactly the header-normalised row: each value under its mapped key, later headers winning |
| CustomerImport.ManualMap | src/controllers/customerImportController.js:118-122 | the manual map holds each mapping under its lower-cased key, later keys winning |
| CustomerImport.SafeTrim | src/controllers/customerImportController.js:67-70 | undefined and null give ""; any other value gives its text without surrounding white space |
| CustomerImport.RouteKeys | src/controllers/customerImportController.js:190-204 | a key whose lower-cased name is an active custom field moves, trimmed, into the custom fields; a key that is no customer column is dropped; every other key stays with its value |
| CustomerImport.TextOf | src/controllers/customerImportController.js:214-230 | every text column is present and holds its trimmed value, "" when absent |
| CustomerImport.ProcessRow | src/controllers/customerImportController.js:156-232 | the customer name is customerName, else CustomerName, else "", trimmed, read from the routed row; the ContactNumber and the e-mail are read from the normalized row before routing: the first extracted number, and the trimmed e-mail or none when blank; the text columns are read from the routed row and trimmed; the custom fields are those routed |
| CustomerImport.ProcessedAt | src/controllers/customerImportController.js:141-156 | one processed row per sheet row, in order: the i-th is the i-th sheet row normalized with the manual mapping, routed and processed |
| CustomerImport.ProcessRows | src/controllers/customerImportController.js:141-232 | the normalize-route-process loop computes the processed rows of the whole sheet |
| CustomerImport.Partition | src/controllers/customerImportController.js:235-238 | the valid rows (name and phone present) and the invalid rows split the processed rows exactly |
| CustomerImport.KnownMeaning | src/controllers/customerImportController.js:274-276 | a phone is known before a row exactly when it is stored already or an earlier row with it was imported (see also customerImportController.js:620-623) |
| CustomerImport.ImportLoop | src/controllers/customerImportController.js:558-628 | the loop imports exactly the accepted rows, fails exactly the refused ones, reports as duplicates exactly the rows whose phone was known on arrival, and each imported phone becomes known |
| CustomerImport.DuplicatesStillImported | src/controllers/customerImportController.js:565-572 | duplicates are reported, not skipped: two rows with the same new phone are both imported and the second is a duplicate |
| CustomerImport.CreatedCity | src/controllers/customerImportController.js:614 | the row's own City when non-empty, else the importing administrator's city when non-empty, else "" |
| CustomerImport.NameCache.GetOrCreate | src/controllers/customerImportController.js:297-319 | a blank name gives null and touches nothing; a cached name gives its cached id without reading the table; else the stored id, or a new record, which is then cached; a cache that agreed with the table still does |
| CustomerImport.RepeatedLookup | src/controllers/customerImportController.js:297-319 | looking the same name up twice gives the same id and creates at most one record |
| CustomerImport.ImportCustomers | src/controllers/customerImportController.js:107-675 | 400 without a field mapping, for a mapping that does not parse to a value, without a file and for an empty sheet; otherwise 400 exactly when no processed row is valid, and on success the imported, duplicate and failed counts are those of the accepted, duplicate and refused valid rows |
| ContactImport.StripCountryCode | src/controllers/contactImportController.js:60 | exactly one leading "91" is removed, and only when present |
| ContactImport.StripZeros | src/controllers/contactImportController.js:61 | every leading zero is removed and nothing else |
| ContactImport.CleanDigits | src/controllers/contactImportController.js:56-63 | the cleaned number holds digits only and does not begin with "0" |
| ContactImport.CleanNumber | src/controllers/contactImportController.js:56-63 | digits only, no leading "0", and "" for a falsy value |
| ContactImport.CleanNumberOfNationalForms | src/controllers/contactImportController.js:56-63 | a mobile number written bare, with "91" in front or with "0" in front cleans to the bare number |
| ContactImport.ExtractedList | src/controllers/contactImportController.js:65-72 | none for a falsy value; otherwise exactly the cleaned pieces of at least ten digits, each once, in the order of their first occurrence; all digits and without a leading "0" |
| ContactImport.ExtractOfDigits | src/controllers/contactImportController.js:65-72 | a digit string is one piece: it yields its cleaned number when that has ten digits or more, else nothing |
| ContactImport.TenDigitsStartingWith91Dropped | src/controllers/contactImportController.js:56-72 | a ten-digit number that begins with "91" loses those digits as if they were a country code and is then dropped as too short |
| ContactImport.SecondExtractionLosesNumber | src/controllers/contactImportController.js:83-94 | "91" followed by ten digits that again begin with "91" survives the first extraction and is lost in the second (see also contactImportController.js:240) |
| ContactImport.ContactNumberHeaderKeepsName | src/controllers/contactImportController.js:77-96 | a "contact number" header has its value rewritten as a phone but keeps its own name unless mapped by hand |
| ContactImport.NormalizeKeys | src/controllers/contactImportController.js:74-99 | the loop builds exactly the header-normalised row, phone-like headers holding their extracted numbers |
| ContactImport.ManualMap | src/controllers/contactImportController.js:196-199 | the manual map holds each mapping under its trimmed, lower-cased key |
| ContactImport.ContactCity | src/controllers/contactImportController.js:243 | the importing administrator's city wins; without one the row's City, else "" |
| ContactImport.Prepare | src/controllers/contactImportController.js:224-248 | a row becomes a contact exactly when ContactNo and Name are truthy; its ContactNo is extracted again and its City follows the administrator-first rule |
| ContactImport.KeptRowLosesItsNumber | src/controllers/contactImportController.js:224 | a row whose ContactNo is a ten-digit number starting with "91" is not skipped, yet its contact is prepared with an empty ContactNo (see also contactImportController.js:240) |
| ContactImport.CityPrecedenceDiffers | src/controllers/customerImportController.js:614 | for the same row and administrator the customer import keeps the row's City while the contact import takes the administrator's (see also contactImportController.js:243) |
| ContactImport.Unique | src/controllers/contactImportController.js:272-274 | exactly the contacts whose number is not stored yet |
| ContactImport.Known | src/controllers/contactImportController.js:276-278 | exactly the contacts whose non-empty number is stored already |
| ContactImport.PartitionExact | src/controllers/contactImportController.js:259-278 | the unique and the duplicate contacts split the prepared contacts exactly |
| ContactImport.RepeatsWithinFileNotCaught | src/controllers/contactImportController.js:259-278 | two rows of one file with the same new number are both unique and neither is a duplicate |
| ContactImport.InsertContacts | src/controllers/contactImportController.js:280-323 | exactly the accepted unique contacts are inserted; a refused insert joins the duplicates; inserted and skipped add up to all prepared contacts |
| ContactImport.RenamedCampaignKeepsOldId | src/controllers/contactImportController.js:104-113 | after a cached campaign is renamed in the table, a lookup of its old name still gives the old id and creates nothing |
| ContactImport.PrepareContacts | src/controllers/contactImportController.js:220-249 | the contacts prepared are exactly those of the rows not skipped, in order; the campaign cache, which need not agree with the table, only grows |
| ContactImport.ImportContacts | src/controllers/contactImportController.js:185-372 | 400 without a field mapping, for a mapping that does not parse to a value, without a file and for an empty sheet; otherwise 400 exactly when no prepared contact is kept, and on success totalRecords, imported and skipped are those of the prepared, accepted and known-or-refused contacts; the campaign cache, which need not agree with the table, only grows |
| ContactImport.NormalizedRowsAt | src/controllers/contactImportController.js:216-218 | one normalized row per sheet row, in order: the i-th is the i-th sheet row with its keys normalized by the manual mapping |
| ContactImport.NormalizeRows | src/controllers/contactImportController.js:216-218 | the normalizing loop computes the normalized rows of the whole sheet |
| ContactImport.Summarize | src/controllers/contactImportController.js:359-367 | totalRecords is the number of prepared contacts, imported the accepted unique ones, skipped the known ones plus the refused ones, and the two add up to the total |
| Messages.BaseMap | src/controllers/controller.messages.js:14-20 | the map starts from exactly the five aliases name, email, contact, city and propertyType |
| Messages.Present | src/controllers/controller.messages.js:22-24 | exactly the customer's fields whose value is neither undefined nor null take part |
| Messages.BuildMap | src/controllers/controller.messages.js:14-26 | the loop builds exactly the alias map overridden by every present field under its lower-cased key |
| Messages.FieldOverridesAlias | src/controllers/controller.messages.js:22-26 | a name that some present field lower-cases to resolves to the last such field's value; only otherwise does an alias apply |
| Messages.PropertyTypeUnreachable | src/controllers/controller.messages.js:19 | lookups lower-case the placeholder name, so the alias propertyType is never reached (see also controller.messages.js:28-30) |
| Messages.MatchAt | src/controllers/controller.messages.js:28 | a match is "{{", a non-empty run without "}", then "}}" |
| Messages.NoPlaceholderUnchanged | src/controllers/controller.messages.js:28-30 | text in which "{{" never occurs comes back unchanged |
| Messages.SubstituteOnePlaceholder | src/controllers/controller.messages.js:28-30 | a placeholder is replaced by its resolved value and scanning resumes after it, so a value is never expanded again |
| Messages.ReplacePlaceholders | src/controllers/controller.messages.js:11-31 | a missing or empty text comes back as it was; any other text is the single-pass substitution over the customer's placeholder map; one without placeholders is unchanged |
| Messages.TargetCustomers | src/controllers/controller.messages.js:36-50 | every customer when the sendToAll flag is truthy (so also for the text "false"); none without a non-empty id array; otherwise exactly the customers whose id is listed |
| Messages.TextFalseSendsToAll | src/controllers/controller.messages.js:36-50 | the flag is tested for truthiness: the text "false" targets every customer, the boolean false and an absent flag target nobody when no id is listed |
| Messages.Listed | src/controllers/controller.messages.js:45-49 | exactly the customers whose id is among the ids |
| Messages.EmailResult | src/controllers/controller.messages.js:72-101 | a customer without an e-mail address is skipped; one with an address is sent exactly when the mailer delivers, else failed; a send goes to the address with the subject and body filled from the customer; every result carries the customer id |
| Messages.FormatPhone | src/controllers/controller.messages.js:146-148 | a number starting with "+" is kept; any other gets the configured country code in front, "+91" when none is configured |
| Messages.FormatPhoneKeepsNumber | src/controllers/controller.messages.js:146-148 | formatting an already formatted international number changes nothing, and the number always ends the result |
| Messages.WhatsAppResult | src/controllers/controller.messages.js:134-167 | a customer without a ContactNumber is skipped; one with a text number that was delivered is sent, to the formatted number with the filled body and no subject; any other is failed; every result carries the customer id |
| Messages.Results | src/controllers/controller.messages.js:70-102 | one result per customer, in order |
| Messages.SentCountOfResults | src/controllers/controller.messages.js:106 | the sent count equals the number of customers whose result is a send |
| Messages.SendLoop | src/controllers/controller.messages.js:70-108 | the loop records one result per customer in order and reports how many were sent |
| Messages.SendByTemplate | src/controllers/controller.messages.js:55-178 | 400 without a template id, 404 for an unknown template, 400 for a template of the other kind, 404 when no customer is targeted; success exactly when customers are targeted; the results are those of the template kind's send for each targeted customer in order, and the sent count is the number of targeted customers whose send succeeded |
| ImageLists.WithoutNothing | src/controllers/controller.customer.js:967-969 | filtering with nothing to remove keeps the list as it was |
| CompanyProjects.ParseJson | src/controllers/controller.companyproject.js:7-11 | a falsy field is the empty list; non-empty text fails (500) exactly when it does not parse; any other value is returned as is |
| CompanyProjects.StrictAndTolerantParseDiffer | src/controllers/controller.companyproject.js:7-11 | malformed stored text breaks a project response, while the update's tolerant parse reads it as nothing (see also controller.companyproject.js:183-192) |
| CompanyProjects.TransformProject | src/controllers/controller.companyproject.js:25-30 | succeeds exactly when both stored image lists parse; then `_id` is the record id, and every other column is kept |
| CompanyProjects.ProjectClauses | src/controllers/controller.companyproject.js:37-43 | at most one clause per filter parameter |
| CompanyProjects.ProjectClausesMeaning | src/controllers/controller.companyproject.js:37-43 | a project passes exactly when, for each supplied ProjectName, ProjectStatus, Range or City, its column holds the untrimmed text ignoring case |
| CompanyProjects.ProjectOrder | src/controllers/controller.companyproject.js:47 | the createdAt order is ascending exactly when sort lower-cases to "asc", and descending otherwise |
| CompanyProjects.UpdateProject | src/controllers/controller.companyproject.js:176-338 | 404 for an unknown project; success exactly when both removal lists are usable; each final list is the stored one minus the removed URLs, or nothing after an explicitly sent empty array, followed by the uploads; the destroyed paths are those of the removed images, then on a clear those of the images still held, then the same for the site plans; every other body key except the stripped ones is written as sent |
| BuilderSliders.SlideParse | src/controllers/controller.buliderslider.js:106-114 | every falsy value gives undefined, an array is returned as it is, unparseable text gives undefined, and a truthy value is parsed as the project update parses it |
| BuilderSliders.FalsyNumberIgnored | src/controllers/controller.buliderslider.js:107 | the number 0 is ignored by the slide parse but read as its text by the project update's parse (see also controller.companyproject.js:184-185) |
| BuilderSliders.SlideRemovals | src/controllers/controller.buliderslider.js:117 | a falsy parse removes nothing, an array removes its text entries, and only non-empty text fails |
| BuilderSliders.TransformBuilder | src/controllers/controller.buliderslider.js:14-18 | succeeds exactly when the stored image list parses; then `_id` is the record id, Image the parsed list, and every other column is kept |
| BuilderSliders.SlideImages | src/controllers/controller.buliderslider.js:123 | the stored list fails exactly when the strict parse fails |
| BuilderSliders.UpdateBuilder | src/controllers/controller.buliderslider.js:100-182 | 404 for an unknown slide; success exactly when the removal list is usable and the stored list parses; Status is written as sent; the final list is the stored one minus the removed URLs, or nothing after an explicitly sent empty array, followed by the uploads; the destroyed paths are "builders/images/<public id>" of each removed URL in order, followed, after an explicitly sent empty array, by those of the stored URLs not removed |
| Validators.FieldText | src/validators/adminValidator.js:5-15 | a rule sees a string as it is and undefined or null as empty text |
| Validators.Rule | src/validators/adminValidator.js:5-9 | a rule reports nothing exactly when it holds, and else exactly one failure with its field and message |
| Validators.RequiredEmail | src/validators/adminValidator.js:5-10 | the e-mail rules pass exactly when the address is non-empty and well-formed |
| Validators.RequiredPassword | src/validators/adminValidator.js:11-15 | the password rules pass exactly when it has six or more characters; a missing password gets both the required and the length failure |
| Validators.AdminLoginFailures | src/validators/adminValidator.js:4-16 | login passes exactly with a non-empty, well-formed e-mail and a password of six or more characters |
| Validators.OptionalTrimmed | src/validators/adminValidator.js:42-46 | an optional trimmed field passes exactly when it is absent or has the minimum length once trimmed |
| Validators.OptionalPhone | src/validators/adminValidator.js:47-51 | an optional phone passes exactly when it is absent or its trimmed text is a mobile number |
| Validators.RequiredAdminName | src/validators/adminValidator.js:20-25 | the name rules pass exactly when the name has two or more characters once trimmed |
| Validators.RequiredRole | src/validators/adminValidator.js:37-41 | the role rules pass exactly when the role is administrator, city_admin or user |
| Validators.CreateAdminFailures | src/validators/adminValidator.js:19-58 | creation passes exactly with a trimmed name of two or more characters, a well-formed e-mail, a six-character password, a known role, and, when sent, a trimmed city of two or more, a mobile phone and a trimmed first address line of three or more characters |
| Validators.UpdateAdminFailures | src/validators/adminValidator.js:61-92 | an update passes exactly when every field sent meets its rule: name two or more trimmed, a well-formed e-mail, a mobile phone, a first address line of three or more, a city of two or more, and a status of Active or Inactive |
| Validators.EmptyAdminUpdatePasses | src/validators/adminValidator.js:61-92 | an update that sends nothing passes |
| Validators.NullStatusRefused | src/validators/adminValidator.js:88-91 | a status sent as null is not skipped and fails the status rule |
| Validators.PasswordChangeFailures | src/validators/adminValidator.js:95-105 | a password change passes exactly with a new password of six or more characters and, when sent, a current one of six or more |
| Validators.ScanMeaning | src/validators/userValidator.js:4 | each flag of the one-pass scan is set exactly when a character of its class occurs |
| Validators.MatchesStrong | src/validators/userValidator.js:4 | the pattern accepts exactly the passwords of six or more characters, none a line break, with an upper-case letter, a digit and one of !@#$%^&* |
| Validators.StrongPassesLogin | src/validators/userValidator.js:4 | a password the pattern accepts also passes the login length rule (see also userValidator.js:30-42) |
| Validators.LoginDoesNotCheckStrength | src/validators/userValidator.js:37-41 | six lower-case letters pass the login rule but not the pattern |
| Validators.LineBreakRefused | src/validators/userValidator.js:4 | a line break anywhere makes the pattern fail |
| Validators.StrongPasswordFailures | src/validators/userValidator.js:20-26 | the password rules pass exactly when the password matches the pattern |
| Validators.RequiredName | src/validators/userValidator.js:14-18 | the name rules pass exactly when the name has three or more characters |
| Validators.SignupFailures | src/validators/userValidator.js:7-27 | signup passes exactly with a well-formed e-mail, a full name of three or more characters and a strong password |
| Validators.UserSignupFailures | src/validators/userValidator.js:62-82 | user signup passes exactly with a well-formed e-mail, a name of three or more characters and a strong password |
| Validators.UserLoginFailures | src/validators/userValidator.js:30-42 | login passes exactly with a well-formed e-mail and a password of six or more characters, strength unchecked |
| Validators.UpdateUserFailures | src/validators/userValidator.js:45-59 | an update passes exactly when a sent full name has three or more characters and a sent password is strong |
| Validators.SignupPassesUpdate | src/validators/userValidator.js:7-59 | every body that signup accepts also passes the update rules |
| Validators.TextRulesMeaning | src/validators/customerValidator.js:11-24 | the string rules pass exactly when every listed field is absent or a string, and each failure names a listed field |
| Validators.OptionalEmail | src/validators/customerValidator.js:46-49 | the customer e-mail passes exactly when it is absent or well-formed |
| Validators.SharedCustomerRules | src/validators/customerValidator.js:11-93 | the shared rules pass exactly when every listed text field is absent or a string and the e-mail is absent or well-formed |
| Validators.CreateCustomerFailures | src/validators/customerValidator.js:4-94 | creation passes exactly with a non-empty string Campaign, a ContactNumber of exactly ten digits, and the shared rules |
| Validators.UpdateCustomerFailures | src/validators/customerValidator.js:97-182 | an update passes exactly when a sent Campaign is a string and the shared rules pass |
| Validators.CreateStricterThanUpdate | src/validators/customerValidator.js:4-182 | every body creation accepts, the update accepts too |
| Validators.UpdateIgnoresContactNumber | src/validators/customerValidator.js:118 | the update rules do not depend on ContactNumber at all |
| Validators.TextRulesUnchanged | src/validators/customerValidator.js:11-24 | the string rules only look at the listed fields |
| Validators.NumericContactNumber | src/validators/customerValidator.js:26-30 | a ten-digit ContactNumber sent as a number passes like its text |
| Agent.FirstCharKept | src/ai/agent.js:11 | removing the three-backtick runs keeps a first character that is not a backtick |
| Agent.NoFenceMeansNotContained | src/ai/agent.js:10-11 | text without a run of three backticks contains neither the plain nor the `json` fence |
| Agent.FencesAroundBodyRemoved | src/ai/agent.js:10-11 | a reply fenced with an upper-case `JSON` tag loses both fences but keeps the tag line |
| Agent.TrailingNewlineTrimmed | src/ai/agent.js:12 | the final trim drops the newline the closing fence leaves behind |
| ContactImport.CleanDigitsWithCode | src/controllers/contactImportController.js:60-61 | digits that begin with "91" lose exactly those two and then their leading zeros |
| ContactImport.CleanDigitsWithZero | src/controllers/contactImportController.js:60-61 | digits that begin with "0" have no country code and lose their leading zeros |
| ContactImport.NationalFormWithCode | src/controllers/contactImportController.js:56-63 | "91" in front of a number not starting with "0" is removed and the number kept |
| ContactImport.NationalFormWithZero | src/controllers/contactImportController.js:56-63 | "0" in front of a number is removed along with the number's own leading zeros |
| ContactImport.FirstExtractionKeepsNumber | src/controllers/contactImportController.js:56-72 | "91" followed by ten digits not starting with "0" extracts to exactly those ten digits |
| CustomerController.NumbersOfNewest | src/controllers/controller.customer.js:205-226 | the k-th de-duplicated record carries the k-th distinct non-empty number of the listing |
| CustomerController.ReadBack | src/controllers/controller.customer.js:205-226 | reading the finished map in insertion order gives the de-duplicated listing |
| CustomerController.WordTrimmed | src/controllers/controller.customer.js:192-196 | a boolean word padded with white space trims back to the word |

## Left out

- Gemini, bcrypt, JWT signing and verification, nodemailer, Twilio and Cloudinary are oracles or given values; their own behaviour is not modelled.
- `JSON.parse` is an uninterpreted parser returning an option; `JSON.stringify` of objects is not modelled beyond text values.
- Prisma queries and writes are in-memory records and tables; ordering by `createdAt`/`updatedAt` other than the de-duplication comparison, key order of objects, and cascade deletes are not modelled.
- `Promise.all` is sequentialised; no property depends on interleaving.
- Dates: `excelDateToString`, the CustomerDate range filter and the StartDate/EndDate filters involve floating point and local time and are not modelled; dates are compared as integers.
- Numbers are integers: floats, `NaN` beyond what `parseInt` yields, and `Number(Limit)` on non-integer text are not modelled.
- Lower-casing is ASCII only and white space is a fixed set of characters; Unicode case mapping is not modelled.
- `isEmail`, `isMobilePhone` and `normalizeEmail` of express-validator are predicate parameters; arrays sent as field values are not modelled.
- The response shaping functions `transformBasicContact`, `transformFullContact`, `transformTemplate`, `transformGetCustomer` and `transformCustomer` only rename keys and are not modelled.
- The summary spreadsheets written after an import, reading contact headers and other sheet I/O are not modelled; rows arrive as parsed maps.
- `getOrCreateContactType` and the type, sub-type, city, location, sub-location and reference caches of the customer import are not modelled; they follow the same get-or-create shape as the modelled campaign cache (`CustomerImport.NameCache`).
- `createFollowup` and `getFollowupByCustomer` are plain database calls and are not modelled.
- `checkAuth` and `adminLogout` only echo or clear the session and are not modelled; AddressLine2 is only trimmed and has no rule.
- The routing, the error handler, multer configuration and the prompt text are not modelled; the prompt matters only for its eleven-field list.
- TemplateController.ExistingImages: a stored value that parses to something other than an array counts as no images; the handler would index such a value as it stands.
- CustomerController.StrItems: entries of a stored image list that are not text are dropped, where the handler would pass them on to the host.
- BuilderSliders.SlideImages: a parsed value that is not an array counts as no images, and non-text entries are dropped; the handler would fail on `.filter` of such a value.
- CompanyProjects.UpdateProject: stored image values that are not arrays count as no images, and removed URLs that are not text are ignored.
- CustomerController.FieldEntries: a CustomerFields value that is (or parses to) text or an array contributes no entries, where JavaScript's `Object.entries` would list its index keys ("0", "1", ...).
- CustomerImport.ManualOf: a field mapping that parses to text or an array counts as empty, where the handler's `Object.entries` would list its index keys.
- ContactImport.ManualOf: as for the customer importer, a mapping that parses to text or an array counts as empty.
- ContactImport.ImportContacts: a Campaign cell that is not text makes the campaign lookup throw outside the per-row handling, so the handler answers 500; the model reads the cell as text and never answers 500 there.
- BuilderSliders.UpdateBuilder: a removed URL that is not text is dropped, where the handler destroys the path "builders/images/null" for it.
- CustomerController.UpdateCustomer: when the site-plan column fails with 500 after the image column was processed, the destroys already made for the image column are not reported; a failed update reports none.
- AdminController.NewRecord: the stored status "Active" is the database default, not set by the handler, and the `phone` the handler stores is not modelled.
- AdminController.ShortPassword: an object sent as the new password with its own `length` property is treated as having no length.
- Messages.Resolve: a placeholder naming a property every JavaScript object inherits (`constructor`, `toString`, ...) resolves in the handler to that inherited function's text; the model resolves it to "".
- Validators.MatchesStrong: the pattern's `.{6,}` counts characters, where the JavaScript regular expression (without the `u` flag) counts UTF-16 code units, so a password with characters outside the Basic Multilingual Plane can pass in the handler and fail in the model; the length rules (`isLength`) count characters as the model does.
- CustomerController.RemovalList: a removal value that parses to an object with a positive `length` key makes the handler's `.map` throw (500); the model reads every non-array, non-text value as removing nothing.
- ContactController.TextIds: entries of the id list that are not text select nothing, where Prisma's `in` filter rejects them and the handler answers 500.
- ContactController.BulkAssignCity: a missing assignee id is answered with 404 as an unknown assignee, where `findUnique` with an undefined id throws and the handler answers 500.
