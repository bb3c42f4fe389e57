# go-tl core, modelled in Dafny

This project models the core of go-tl. go-tl is a Go back end for an admin panel, a category catalogue and a file finder. The model covers these parts:

- **Conditions, both generations.** The condition builders render WHERE fragments and their placeholder arguments. `pkg/support/repository/condition.go` holds the first generation and `pkg/support/db_repository/condition.go` the second. Both are checked against one reference rendering of condition trees (`ConditionTree`).
- **Pagination.** `pkg/support/paginate` resolves offsets and total page counts and builds the paginated-list envelope.
- **The generic repositories.** Both generations run over a gorm-like store (`GormStore`). The store is a query builder plus one table of rows kept in primary-key order. The backend's meaning of a WHERE fragment and its failures are parameters.
- **The database drivers.** `pkg/database/postgres`, `pkg/database/mysql` and the older `pkg/database/driver.go` are classes whose fields are updated in place. They cover the functional options, Connect's bounded retry loop and the Begin/Commit/Rollback/GetDB transaction state. Each method is proved against the pure specifications in `DbBackend`.
- **The entity/model mappings.** These are the conversions between persistence models and domain entities for admins, users, access tokens and categories.
- **The helpers.** The path prefixer and the S3 path helper, the finder's path and file-type helpers, the absolute-URL helper, the HTTP query-parameter helpers, the slice helpers and the log-level mapping.
- **The password-hash codec.** This is the encoded-hash text the Argon2id hasher writes and parses back. It is modelled down to strict unpadded base64 (RFC 4648, section 4) and fmt.Sscanf's decimal scanning. The bcrypt and Argon2 defaults are included too.
- **The use cases.** Categories (store, update, delete and their rules on default and published categories), the finder (directory listing and upload paths), and admin login with access tokens.

Everything the core calls but does not define is a parameter of the model. This covers gorm's backend, the disk, the JWT signer, the clock, the struct validator and the key-derivation functions. Each use case records the repository calls it makes or takes their answers as arguments.

Some source files are copies of a modelled file under another package path. Each copy is covered by the same members as the file it copies, and the table cites only one of them:

- `internal/category/domain/usecase/cat_usecase.go`: its Store, Update and Delete are the code of `internal/category/usecase/cat_usecase.go`.
- `internal/category/data/model/models.go` is the category model.
- `internal/auth/data/model/user.go` and `internal/auth/datasource/models/user.go` are the account model.
- `internal/auth/entities/user.go` and `internal/auth/domain/entity/user.go` are the account entity. The domain copy has only `ToMap`; it has no `CheckPassword`.
- `internal/category/data/datasource/cat_datasource.go` is the category listing over `db_repository`.
- The login use cases of `internal/admin`, `internal/auth` and `internal/auth/domain` are all modelled in `Login`.

Where the code falls short of what the rest of the program evidently expects of it, the model follows the code, and the gap is listed under "## Findings". Two examples:

- `ResolveOffset(0, limit)` is `-limit`. The repositories' page getters map page 0 to page 1 before calling it, so they never ask for that offset.
- Commit and Rollback refuse to run without an open transaction (pkg/database/postgres/postgres.go:104-107). Begin, however, does not check for one that is already open, and it replaces it.

## Model

| member | source | states |
|---|---|---|
| AccountEntities.User.ToMap | internal/admin/entities/admin.go:23-30 | the JSON map has exactly the keys name, email and last_login_at, holding the name, the email and the last-login pointer |
| AccountEntities.User.CheckPassword | internal/admin/entities/admin.go:32-34 | the answer is the checker's verdict on (stored hash, plain password), in that order |
| AccountEntities.ToMapHidesSecrets | internal/admin/entities/admin.go:8-30 | two users have the same map if and only if they agree on name, email and last login; id, password and the other timestamps never show |
| AccountEntities.CheckPasswordSeesOnlyHash | internal/admin/entities/admin.go:32-34 | users with the same hash get the same answer; with an equality checker the check passes exactly when the plain password is the stored one |
| AccountEntities.AdminAccessToken.ToMap | internal/admin/entities/admin_access_token.go:19-24 | the map has exactly the keys access_token and expired_in, holding the token and its float lifetime |
| AccountEntities.ExpiryIsMonotone | internal/admin/entities/admin_access_token.go:15-17 | a token is not expired in its own expiry second, is expired exactly after it, and stays expired later |
| AccountEntities.TokenMapHidesOwner | internal/admin/entities/admin_access_token.go:19-24 | two tokens have the same map if and only if they agree on token text and lifetime |
| AccountModels.UserModel.ToEntity | internal/admin/datasource/models/models.go:33-43 | the entity carries every field of the model, the password hash included |
| AccountModels.UserModel.FromEntity | internal/admin/datasource/models/models.go:45-55 | the model carries every field of the entity, whatever the receiver |
| AccountModels.UserRoundTrips | internal/auth/datasource/models/user.go:23-45 | for every key type, entity-to-model and model-to-entity are inverse to each other |
| AccountModels.AdminAccessTokenModel.ToEntity | internal/admin/datasource/models/models.go:61-74 | the entity has the model's fields, a converted admin exactly when one was preloaded, and a zero ExpiredIn |
| AccountModels.AdminAccessTokenModel.FromEntity | internal/admin/datasource/models/models.go:76-84 | the model keeps id, token, expiry, admin id and creation time, and has no admin |
| AccountModels.TokenRoundTrips | internal/admin/datasource/models/models.go:61-84 | a model comes back without its admin, an entity without its admin and lifetime; a model with a preloaded admin does not come back equal |
| AdminTokens.TimeoutText | internal/admin/usecase/token_manager.go:103-105 | an unset timeout reads as "1440"; a set one is kept |
| AdminTokens.GetConfig | internal/admin/usecase/token_manager.go:95-114 | an empty secret is "jwt secret mismatch"; otherwise the result is a configuration exactly when the timeout text parses, holding the secret and the parsed minutes, and the Atoi error when it does not |
| AdminTokens.ConfigTimeouts | internal/admin/usecase/token_manager.go:95-114 | with a secret, no timeout gives 1440 minutes, and any int64 timeout written in decimal is read back exactly |
| AdminTokens.ConfigRejectsText | internal/admin/usecase/token_manager.go:107-111 | a timeout that is not a number is a configuration error |
| AdminTokens.ExpiredIn | internal/admin/usecase/token_manager.go:30 | the lifetime is the whole number of seconds from the later clock reading to the expiry, so its floor is that difference |
| AdminTokens.CreateToken | internal/admin/usecase/token_manager.go:22-55 | a configuration error is wrapped as a domain error with no repository call; a nil admin with a valid configuration is a panic; on success exactly one Create was made, of the row signed for the admin's id with the claims expired_in and expired_at, expiring timeout*60 seconds from now; the result is that row with its new id and its lifetime in whole seconds measured from the later clock reading, which is at most timeout*60 when the clock does not go back; it is not expired now when the timeout is not negative; a token is returned exactly when no error is |
| AdminTokens.CheckToken | internal/admin/usecase/token_manager.go:57-72 | a lookup error is passed on, a missing token is "not valid yet", an expired one "token is expired"; otherwise the token found, unexpired, is returned with no error |
| AdminTokens.RefreshUnknownTokenPanics | internal/admin/usecase/token_manager.go:74-80 | a token the repository does not know (nil, no error) is dereferenced: the run panics |
| AdminTokens.RefreshCreatesBeforeInvalidating | internal/admin/usecase/token_manager.go:74-93 | the old token is invalidated only as the second call, after a successful Create; a successful refresh made exactly Create then Invalid of the old token, and the new token belongs to the old token's admin |
| AdminTokens.RefreshCheckedNeverPanics | internal/admin/usecase/token_manager.go:74-80 | with the nil check added, a refresh of a token loaded with its admin never panics, and an unknown token is "not valid yet" |
| AdminTokens.InvalidOnlyValidTokens | internal/admin/usecase/token_manager.go:116-127 | a repository call is made if and only if the token exists and has not expired, and it invalidates exactly that token; otherwise CheckToken's error is returned |
| AppUrl.WithAppUrl | pkg/support/helper/app_url.go:9-17 | the result starts with the base and "/", and the rest is the path with its leading slashes trimmed |
| AppUrl.WithoutAppUrl | pkg/support/helper/app_url.go:19-34 | a URL without the base is returned as it is (leading slashes trimmed when asked); otherwise the first occurrence of the base is cut out |
| AppUrl.RemoveLeadingBase | pkg/support/helper/app_url.go:22-27 | a URL that starts with the base loses exactly that leading copy |
| AppUrl.AppUrlRoundTripKeepsSlash | pkg/support/helper/app_url.go:9-34 | removing the base from a URL built with it leaves "/" and the trimmed path |
| AppUrl.AppUrlRoundTrip | pkg/support/helper/app_url.go:9-34 | with noTrailing the round trip gives back the path without its leading slashes |
| AppUrl.RemovesFirstOnly | pkg/support/helper/app_url.go:22-27 | only the first occurrence is replaced: a base that occurs twice keeps its second copy |
| Base64.Encode | pkg/hashing/driver.go:76-77 | the unpadded standard encoding has length ceil(4n/3) and uses only the 64 alphabet characters |
| Base64.DecodeStrict | pkg/hashing/driver.go:132-142 | a text that decodes uses only alphabet characters |
| Base64.DecodeEncode | pkg/hashing/driver.go:76-77 | decoding strictly what EncodeToString wrote gives back the same bytes |
| Base64.DecodeCanonical | pkg/hashing/driver.go:132-142 | strict decoding accepts only canonical texts: re-encoding what it decoded gives the same text, of the decoded length |
| Base64.EncodeInjective | pkg/hashing/driver.go:76-77 | two byte strings have the same encoding if and only if they are equal |
| Base64.UnsextetsOfSextets | pkg/hashing/driver.go:76-77 | regrouping the 6-bit groups of a byte string into bytes gives the string back |
| Base64.SextetsOfUnsextets | pkg/hashing/driver.go:132-142 | a sequence of 6-bit groups that regroups into bytes is the grouping of those bytes, and their count is the decoded length |
| Hashing.NewBcrypt | pkg/hashing/driver.go:31-38 | a zero cost becomes 14; any other configuration is kept |
| Hashing.NewArgon2 | pkg/hashing/driver.go:147-171 | each zero field takes its default (64 KiB memory, 3 iterations, parallelism 2, 16-byte salt, 32-byte key); non-zero fields are kept |
| Hashing.SkipSpace | pkg/hashing/driver.go:118 | Sscanf skips a suffix's leading white space and fails on a newline; what is left does not start with a space |
| Hashing.Literal | pkg/hashing/driver.go:118 | a literal of the format matches exactly when the input starts with it, and the rest follows it |
| Hashing.ScanUint | pkg/hashing/driver.go:127 | %d into uint32/uint8 yields a value below the type's bound and stops at a non-digit |
| Hashing.ScanInt | pkg/hashing/driver.go:118 | %d into an int yields a 64-bit value and stops at a non-digit |
| Hashing.ScanVersion | pkg/hashing/driver.go:118 | the version parses only after the literal "v=" |
| Hashing.ScanParams | pkg/hashing/driver.go:126-130 | the parameters parse only after "m=", and the salt and key lengths stay zero |
| Hashing.ScanUintFormat | pkg/hashing/driver.go:127 | %d reads back any in-range number written in decimal, up to the next non-digit |
| Hashing.ScanIntFormat | pkg/hashing/driver.go:118 | the same for a non-negative int |
| Hashing.ScanParamsText | pkg/hashing/driver.go:79 | the "m=%d,t=%d,p=%d" text written by generateFromPassword scans back to the same three parameters |
| Hashing.ScanVersionText | pkg/hashing/driver.go:79 | the "v=%d" text scans back to its number |
| Hashing.ScanIntSigned | pkg/hashing/driver.go:118 | %d also accepts an explicit sign in front of the digits |
| Hashing.ScanIntLeadingZero | pkg/hashing/driver.go:118 | a leading zero does not change the number %d reads |
| Hashing.DecodeKeys | pkg/hashing/driver.go:132-142 | the salt and key decode exactly when both fields are valid strict base64, and their lengths, cut to uint32, become SaltLength and KeyLength |
| Hashing.DecodeFields | pkg/hashing/driver.go:117-142 | a decoded hash had a version equal to argon2.Version and scannable parameters; any other scanned version is "incompatible version of argon2" |
| Hashing.DecodeHash | pkg/hashing/driver.go:111-145 | a text that does not split on "$" into six fields is refused with the format error, and only a six-field text decodes |
| Hashing.SplitFields | pkg/hashing/driver.go:112-115 | joining six fields free of "$" and splitting them again returns the same fields to decodeHash |
| Hashing.DecodeEncodeHash | pkg/hashing/driver.go:64-145 | decoding what generateFromPassword writes gives back the memory, iterations, parallelism, salt, key and their lengths |
| Hashing.DecodeNeedsFiveSeparators | pkg/hashing/driver.go:112-115 | a text without exactly five "$" is refused with the format error |
| Hashing.OtherVersionRefused | pkg/hashing/driver.go:122-124 | a well-formed text with any other version number is refused as incompatible |
| Hashing.VariantIgnored | pkg/hashing/driver.go:111-145 | the variant field is never looked at: any variant name decodes like "argon2id" |
| Hashing.VersionWithSign | pkg/hashing/driver.go:118-124 | "v=+19" passes the version check |
| Hashing.VersionWithLeadingZero | pkg/hashing/driver.go:118-124 | "v=019" passes the version check |
| Hashing.VersionMissing | pkg/hashing/driver.go:118-121 | "v=" fails with EOF and an empty field with unexpected EOF |
| Hashing.RandomBytes | pkg/hashing/driver.go:82-89 | n bytes from the random source unless the read fails, in which case nothing |
| Hashing.Make | pkg/hashing/driver.go:64-80 | a failed read returns "" and its error; otherwise the text decodes to the hasher's memory, iterations and parallelism and a salt of SaltLength bytes |
| Hashing.ConstantTimeCompare | pkg/hashing/driver.go:105 | 1 exactly when the two byte strings are equal, else 0 |
| Hashing.Check | pkg/hashing/driver.go:56-109 | a text that does not decode is refused; an accepted password derives, with the decoded salt and parameters, exactly the decoded key |
| Hashing.CheckIgnoresReceiver | pkg/hashing/driver.go:91-109 | the answer does not depend on the hasher's own configuration |
| Hashing.CheckAcceptsMade | pkg/hashing/driver.go:52-109 | a hash made from a password checks against that password on any hasher, when the key derivation returns keys of the requested length |
| Hashing.CheckRefusesMalformed | pkg/hashing/driver.go:111-115 | a text without exactly five "$" is refused whatever the password |
| CategoryEntities.Category.ToMap | internal/category/entities/category.go:20-30 | the map has exactly the seven JSON keys, each holding its own field |
| CategoryEntities.PublicIffPublished | internal/category/entities/category.go:32-34 | a category is public if and only if its status is the publish status; a draft is never public |
| CategoryEntities.ToMapInjective | internal/category/entities/category.go:20-30 | the map loses nothing: equal maps come from equal categories |
| CategoryEntities.CategoryFormData.GetIsDefault | internal/category/transport/http/v1/form_data.go:22-29 | true if and only if the field is present and true |
| CategoryEntities.AllowedStatusNeverPublic | internal/category/transport/http/v1/form_data.go:6 | no status that `oneof=1 2` lets through is public, and both of the entity's statuses (10, 11) are refused |
| CategoryList.Lookup | internal/category/datasource/cat_repo.go:25-31 | indexing the filter map gives the stored value, or "" for a missing key |
| CategoryList.CreatedAtRange | internal/category/datasource/cat_repo.go:31-36 | a range exists exactly when the created_at filter holds one comma, and its two ends are the text around it |
| CategoryList.LegacyConditions | internal/category/datasource/cat_repo.go:24-36 | the name condition always comes first, then the status condition when one is given, then the range when there is one, and nothing else |
| CategoryList.DbConditions | internal/category/data/datasource/cat_datasource.go:24-36 | the same three conditions, with the db_repository builders |
| CategoryList.ConditionsAgree | internal/category/data/datasource/cat_datasource.go:24-36 | both listings build the same number of conditions, with the same field, operator and values except for the margin string |
| CategoryList.EmptyFiltersMatchName | internal/category/datasource/cat_repo.go:25 | an empty filter map still filters by name, with the pattern "%%" |
| CategoryList.ListVars | internal/category/datasource/cat_repo.go:38-49 | the positional options decode to no scopes, every column, the given sort, and the page and page size with their defaults |
| CategoryList.ListParam | internal/category/data/datasource/cat_datasource.go:38-46 | the Param carries the conjunction, the sort, the page and the limit and nothing else |
| CategoryList.LegacyListCategories | internal/category/datasource/cat_repo.go:17-50 | the first fault is returned with an empty list; otherwise the list is the requested page of matching rows and the paginator counts every match |
| CategoryList.DbListCategories | internal/category/data/datasource/cat_datasource.go:17-47 | the first fault is returned with no page list; otherwise the page list holds the window and the total count of the rows selected by the padded, as-written WHERE clause of the filter conjunction |
| CategoryList.DbListClauseIsPadded | internal/category/data/datasource/cat_datasource.go:24-45 | the listing hands the store one WHERE clause whose arguments are one nil per filter condition followed by the real ones, so it always binds more arguments than its fragment has placeholders |
| CategoryList.DbListEmptyFilters | internal/category/data/datasource/cat_datasource.go:24-45 | with no filters the store is given "( AND name like ?)" with the arguments nil and "%%" |
| CategoryModels.CategoryModel.TableName | internal/category/datasource/models/models.go:18-20 | the table is "categories" |
| CategoryModels.CategoryModel.ToEntity | internal/category/datasource/models/models.go:22-32 | every field is copied to the entity |
| CategoryModels.CategoryModel.FromEntity | internal/category/datasource/models/models.go:34-44 | every field is copied from the entity |
| CategoryModels.RoundTrips | internal/category/datasource/models/models.go:22-44 | FromEntity undoes ToEntity and ToEntity undoes FromEntity |
| CategoryUseCase.InsertOutcome | internal/category/datasource/cat_repo.go:52-54 | an insert without fault and with a free id stores the category under its id, or under the next id when it has none; otherwise nothing changes and a datasource error comes back |
| CategoryUseCase.Overlay | internal/category/datasource/cat_repo.go:79-81 | an update keeps the stored id, writes only the non-zero fields, and cannot clear the default flag |
| CategoryUseCase.Written | internal/category/datasource/cat_repo.go:79-81 | only the row with the category's id is overlaid; every other row and the set of ids stay |
| CategoryUseCase.UpdateWrite | internal/category/datasource/cat_repo.go:79-81 | the update succeeds exactly without fault and with a non-zero id, and then writes the row; otherwise the table stays |
| CategoryUseCase.ClearDefaults | internal/category/datasource/cat_repo.go:56-65 | every row except the given id loses its default flag; the ids stay |
| CategoryUseCase.UpdateDefaultWrite | internal/category/datasource/cat_repo.go:56-65 | without fault the defaults are cleared, with one the table stays and the error is returned |
| CategoryUseCase.DeleteWrite | internal/category/datasource/cat_repo.go:83-85 | the delete succeeds exactly without fault and with a non-zero id, and then removes that row only |
| CategoryUseCase.CategoryRepo.Store | internal/category/datasource/cat_repo.go:52-54 | the new table, id counter and stored category are those of InsertOutcome |
| CategoryUseCase.CategoryRepo.UpdateDefault | internal/category/datasource/cat_repo.go:56-65 | the new table and error are those of UpdateDefaultWrite |
| CategoryUseCase.CategoryRepo.Update | internal/category/datasource/cat_repo.go:79-81 | the new table and error are those of UpdateWrite |
| CategoryUseCase.CategoryRepo.Delete | internal/category/datasource/cat_repo.go:83-85 | the new table and error are those of DeleteWrite |
| CategoryUseCase.NewCategory | internal/category/usecase/cat_usecase.go:35-44 | the new category carries the form's fields, no id, and the current time as both timestamps |
| CategoryUseCase.StoreRule | internal/category/usecase/cat_usecase.go:46-48 | a category is refused exactly when it is default and not public, with "default category must be published" |
| CategoryUseCase.Store | internal/category/usecase/cat_usecase.go:34-64 | the new table, id counter, result and error are those of StoreOutcome (the rule, the insert, then clearing the other defaults) |
| CategoryUseCase.StoreSucceeds | internal/category/usecase/cat_usecase.go:34-64 | Store succeeds exactly when the rule, the insert and the default update all pass; it then stores the category under a fresh id and keeps at most one, published, default; a refusal changes nothing |
| CategoryUseCase.UpdateRule | internal/category/usecase/cat_usecase.go:71-77 | both refusals look at the stored flag: a default may not become a draft and may not stop being the default |
| CategoryUseCase.Edited | internal/category/usecase/cat_usecase.go:88-92 | the form's name, description, status and flag are copied in with a new update time; id and creation time stay |
| CategoryUseCase.Update | internal/category/usecase/cat_usecase.go:70-95 | the new table, the caller's category and the error are those of UpdateOutcome under the rule as written |
| CategoryUseCase.UpdateKeepsOneDefault | internal/category/usecase/cat_usecase.go:81-94 | whatever the rule and the faults, Update never leaves two default categories |
| CategoryUseCase.UpdateEffects | internal/category/usecase/cat_usecase.go:70-95 | a refused Update or a failed default update changes nothing; success exactly when every step passes, and then the form is copied into the category and over its row |
| CategoryUseCase.Delete | internal/category/usecase/cat_usecase.go:97-102 | the new table and error are those of DeleteOutcome: the default category is refused, anything else goes to the repository |
| CategoryUseCase.DeleteKeepsDefault | internal/category/usecase/cat_usecase.go:97-102 | Delete removes at most the caller's row, keeps both invariants and never removes the default category |
| CategoryUseCase.DraftMadeDefault | internal/category/usecase/cat_usecase.go:71-94 | a draft that is not yet default passes the rule as written and is stored as a default draft |
| CategoryUseCase.UpdateRuleIntended | internal/category/usecase/cat_usecase.go:71-77 | the publish rule applied to the edited category: refused exactly when the form asks for a default that is not published |
| CategoryUseCase.UpdateIntendedKeepsDefaultsPublic | internal/category/usecase/cat_usecase.go:70-95 | with the corrected rule every default category stays published, whatever faults happen |
| CategoryUseCase.ValidatedDefaultNeverStored | internal/category/transport/http/v1/form_data.go:6 | a form that passes `oneof=1 2` and asks for a default is always refused by Store, with nothing changed |
| CategoryUseCase.IntendedDefaultStored | internal/category/usecase/cat_usecase.go:34-64 | with the entity's statuses allowed, a published default form is stored under the new id as the one default |
| ConditionTree.PlaceholderCount | pkg/support/repository/condition.go:13-181 | in a tree whose texts hold no "?", the query has exactly as many placeholders as there are bound values |
| ConditionTree.JoinPlaceholders | pkg/support/repository/condition.go:13-31 | a join keeps the placeholder count equal to the value count when every child does |
| ConditionTree.LeafPlaceholders | pkg/support/repository/condition.go:65-181 | each leaf has as many placeholders as values: one for a binary operator, two for a range, one for a list, none for raw text |
| ConditionTree.JoinCount | pkg/support/repository/condition.go:20-27 | joining fragments with a glue free of "?" adds up their placeholders, as concatenation adds up their values |
| ConditionTree.JoinOfTwo | pkg/support/repository/condition.go:13-31 | a join of two conditions renders "(q1 sep q2)" and binds the first child's values before the second's |
| ConditionTree.PairJoin | pkg/support/repository/condition.go:13-21 | the same for any two-element list |
| LegacyCondition.GetQuery | pkg/support/repository/condition.go:13-21 | the loop over the children and every node's method give the tree's fragment |
| LegacyCondition.GetValues | pkg/support/repository/condition.go:23-31 | the loop appends the children's arguments so that the result is the tree's flattened values, in order |
| LegacyCondition.And | pkg/support/repository/condition.go:33-38 | the arguments are the children's in order, and two children render "(q1 AND q2)" |
| LegacyCondition.Or | pkg/support/repository/condition.go:40-45 | the same with "OR" |
| LegacyCondition.NotOf | pkg/support/repository/condition.go:47-57 | the fragment is " NOT (q)" and the arguments are the child's |
| LegacyCondition.Equal | pkg/support/repository/condition.go:73-79 | renders "field = ?" with the value as the only argument |
| LegacyCondition.GreaterThan | pkg/support/repository/condition.go:81-87 | renders "field > ?" with the value |
| LegacyCondition.GreaterOrEqual | pkg/support/repository/condition.go:89-95 | renders "field >= ?" with the value |
| LegacyCondition.LessThan | pkg/support/repository/condition.go:97-103 | renders "field < ?" with the value |
| LegacyCondition.LessOrEqual | pkg/support/repository/condition.go:105-111 | as written it renders "field >= ?" |
| LegacyCondition.LessOrEqualIsGreaterOrEqual | pkg/support/repository/condition.go:89-111 | LessOrEqual builds the very condition GreaterOrEqual builds |
| LegacyCondition.LessOrEqualIntended | pkg/support/repository/condition.go:105-111 | the corrected builder renders "field <= ?" and differs from GreaterOrEqual |
| LegacyCondition.Contains | pkg/support/repository/condition.go:113-120 | renders "field like ?" with the value wrapped in "%" wildcards |
| LegacyCondition.Between | pkg/support/repository/condition.go:137-144 | renders "field between ? AND ?" with the two ends in order |
| LegacyCondition.NotBetween | pkg/support/repository/condition.go:146-153 | renders "field not between ? AND ?" with the two ends |
| LegacyCondition.IsNull | pkg/support/repository/condition.go:155-167 | renders "field IS NULL" with no arguments |
| LegacyCondition.In | pkg/support/repository/condition.go:169-189 | renders "field IN (?)" with the whole list as one argument |
| LegacyCondition.NotIn | pkg/support/repository/condition.go:175-197 | as written it also renders "field IN (?)": the operator is never used |
| LegacyCondition.NotInRendersIn | pkg/support/repository/condition.go:175-197 | NotIn and In render the same fragment and arguments |
| LegacyCondition.NotInIntended | pkg/support/repository/condition.go:191-197 | the corrected builder renders the negated IN test over the same arguments and differs from In |
| DbCondition.GetQuery | pkg/support/db_repository/condition.go:13-21 | as written: the join's parts start with one blank per child, then the children's fragments, joined by the separator |
| DbCondition.GetValues | pkg/support/db_repository/condition.go:23-31 | as written: the join's arguments start with one nil per child, then the children's arguments in order |
| DbCondition.JoinStartsWithNils | pkg/support/db_repository/condition.go:23-31 | every non-empty join binds nil to its first placeholders, one per child, whatever the children are |
| DbCondition.AndAsWrittenFailsTest | pkg/support/db_repository/condition.go:13-38 | the package's TestAnd renders "( AND  AND name = ? AND age != ?)" with four arguments, where the corrected rendering gives "(name = ? AND age != ?)" with two |
| DbCondition.PaddedJoinOverbinds | pkg/support/db_repository/condition.go:13-38 | a join of well-formed leaves, as written, has the intended placeholders but one nil per child in front of the intended arguments, so it binds as many arguments too many as it has children |
| DbCondition.AndOfOne | pkg/support/db_repository/condition.go:13-38 | a conjunction of one condition renders "( AND q)" with one nil before the condition's arguments |
| DbCondition.TestAndQuery | pkg/support/db_repository/condition.go:13-21 | the padded rendering of TestAnd, piece by piece |
| DbCondition.TestAndValues | pkg/support/db_repository/condition.go:23-31 | the padded arguments of TestAnd: two nils, then "test" and 30 |
| DbCondition.And | pkg/support/db_repository/condition.go:33-38 | two children render "(q1 AND q2)" under the corrected rendering, the as-written arguments start with one nil per child, and a tree of well-formed parts is well formed |
| DbCondition.Or | pkg/support/db_repository/condition.go:40-45 | the same with "OR" |
| DbCondition.NotOf | pkg/support/db_repository/condition.go:47-61 | the fragment is " NOT (q)" and the arguments are the child's |
| DbCondition.Equal | pkg/support/db_repository/condition.go:77-83 | renders "field = ?" with the value |
| DbCondition.NotEqual | pkg/support/db_repository/condition.go:85-91 | renders "field != ?" with the value |
| DbCondition.GreaterThan | pkg/support/db_repository/condition.go:93-99 | renders "field > ?" with the value |
| DbCondition.GreaterOrEqual | pkg/support/db_repository/condition.go:101-107 | renders "field >= ?" with the value |
| DbCondition.LessThan | pkg/support/db_repository/condition.go:109-115 | renders "field < ?" with the value |
| DbCondition.LessOrEqual | pkg/support/db_repository/condition.go:117-123 | renders "field <= ?" with the value |
| DbCondition.Contains | pkg/support/db_repository/condition.go:125-132 | renders "field like ?" with the value wrapped in "%" wildcards |
| DbCondition.Between | pkg/support/db_repository/condition.go:140-155 | renders "field BETWEEN ? AND ?" with the two ends in order |
| DbCondition.NotBetween | pkg/support/db_repository/condition.go:140-164 | renders "field NOT BETWEEN ? AND ?" with the two ends |
| DbCondition.IsNull | pkg/support/db_repository/condition.go:168-178 | renders "field IS NULL" with no arguments |
| DbCondition.In | pkg/support/db_repository/condition.go:186-200 | renders "field IN (?)" with the whole list as one argument |
| DbCondition.NotIn | pkg/support/db_repository/condition.go:186-208 | as written it also renders "field IN (?)": the operator is never used |
| DbCondition.NotInRendersIn | pkg/support/db_repository/condition.go:186-208 | NotIn and In render the same fragment and arguments |
| DbCondition.NotInIntended | pkg/support/db_repository/condition.go:202-208 | the corrected builder renders the negated IN test over the same arguments and differs from In |
| DbBackend.FinishNeedsTransaction | pkg/database/postgres/postgres.go:105-108 | Commit or Rollback without an active transaction fails with "transaction is not start" and changes nothing |
| DbBackend.FinishOutcome | pkg/database/postgres/postgres.go:105-129 | with an active transaction, success exactly when the backend succeeds; it then leaves an idle driver with the same pool, and a failure keeps the transaction |
| DbBackend.BeginThenFinish | pkg/database/postgres/postgres.go:95-129 | Begin on an idle driver opens a transaction that GetDB answers, and a successful Commit or Rollback returns to the state before |
| DbBackend.TransitionsConsistent | pkg/database/postgres/postgres.go:95-129 | Begin, Commit and Rollback keep the flag and the transaction handle in step and never touch the pool |
| DbBackend.CurrentIsTransaction | pkg/database/postgres/postgres.go:135-140 | GetDB answers the transaction handle exactly while a transaction is open, otherwise the pool |
| DbBackend.BeginDiscardsOpenTransaction | pkg/database/postgres/postgres.go:95-103 | a second Begin succeeds and replaces the open transaction's handle |
| DbBackend.AfterBeginGuarded | pkg/database/postgres/postgres.go:95-103 | the corrected Begin refuses while a transaction is open and otherwise behaves as written |
| DbBackend.GuardedBeginKeepsTransaction | pkg/database/postgres/postgres.go:95-103 | the corrected Begin never loses an open transaction handle |
| DbBackend.StopAt | pkg/database/postgres/postgres.go:51-74 | the loop stops at the first successful attempt, or at the last allowed one, only after failures |
| DbBackend.StopAtIs | pkg/database/postgres/postgres.go:51-74 | that stopping point is unique |
| DbBackend.RetryBounded | pkg/database/postgres/postgres.go:49-78 | at most connAttempts tries, each failure costing one: success exactly when some try succeeds, keeping the first success's handle; otherwise no attempts left and the last error |
| DbBackend.RetrySucceededAt | pkg/database/postgres/postgres.go:51-74 | the loop that first succeeds at try k keeps that handle and attempts - k attempts |
| DbBackend.RetryExhausted | pkg/database/postgres/postgres.go:51-78 | when every try fails the loop ends with no attempts and the last try's error |
| DbBackend.RetryLoop | pkg/database/postgres/postgres.go:50-78 | the loop's handle, attempts left and error are those of Retry |
| DbBackend.NoAttemptsReportsSuccess | pkg/database/postgres/postgres.go:49-78 | with no attempts left nothing is tried and the error is nil, with no handle |
| DbBackend.RetryChecked | pkg/database/postgres/postgres.go:49-78 | the corrected Connect keeps the loop's handle and attempts and reports its errors, and errs when no handle was made |
| DbBackend.CheckedConnectHasHandle | pkg/database/postgres/postgres.go:49-78 | the corrected Connect succeeds only with a handle, and behaves as written when attempts remain |
| PostgresDriver.Set | pkg/database/postgres/options.go:7-39 | each option sets its own field (sslmode "enable" or "disable" from the flag) and leaves every other field as it was |
| PostgresDriver.SetAllSnoc | pkg/database/postgres/postgres.go:152-154 | applying one more option sets it on top of what the earlier options left |
| PostgresDriver.LastConnAttemptsWins | pkg/database/postgres/postgres.go:152-154 | the last ConnAttempts option decides the attempts, and without one the default stays |
| PostgresDriver.Postgres.constructor | pkg/database/postgres/postgres.go:142-157 | the defaults (pool 1, 10 attempts, 1s, "disable", "UTC") with every option applied in order; no connection and no transaction |
| PostgresDriver.Postgres.Apply | pkg/database/postgres/options.go:7-39 | running one option closure changes the settings as Set says |
| PostgresDriver.Postgres.Close | pkg/database/postgres/postgres.go:35-47 | without a handle nil; otherwise the pool's error, then the close error |
| PostgresDriver.Postgres.Connect | pkg/database/postgres/postgres.go:49-89 | the handle and attempts are those of the retry loop over the configured DSN; on success the pool's error is returned, or the pool is limited to maxPoolSize |
| PostgresDriver.Postgres.Begin | pkg/database/postgres/postgres.go:95-103 | the new state and error are those of AfterBegin |
| PostgresDriver.Postgres.Commit | pkg/database/postgres/postgres.go:105-116 | the new state and error are those of AfterFinish with the commit's answer |
| PostgresDriver.Postgres.Rollback | pkg/database/postgres/postgres.go:118-129 | the new state and error are those of AfterFinish with the rollback's answer |
| PostgresDriver.Postgres.GetDB | pkg/database/postgres/postgres.go:135-140 | the handle GetDB answers in the current state |
| MySqlDriver.Set | pkg/database/mysql/options.go:7-40 | each option sets its own field verbatim and leaves every other field as it was |
| MySqlDriver.SetAllSnoc | pkg/database/mysql/mysql.go:143-145 | applying one more option sets it on top of what the earlier options left |
| MySqlDriver.LastParseTimeWins | pkg/database/mysql/mysql.go:143-145 | the last ParseTime option decides the flag, and without one the default stays |
| MySqlDriver.ParseTimeText | pkg/database/mysql/mysql.go:52-55 | the flag is spelled "true" exactly when it is set, and "false" otherwise |
| MySqlDriver.MySql.Dsn | pkg/database/mysql/mysql.go:56-66 | the connection string ends in the charset, the spelled parseTime flag and the location |
| MySqlDriver.MySql.constructor | pkg/database/mysql/mysql.go:133-148 | the defaults (1 connection, 10 attempts, 1s, "utf8", parseTime true, "Local") with every option applied in order; no connection and no transaction |
| MySqlDriver.MySql.Apply | pkg/database/mysql/options.go:7-40 | running one option closure changes the settings as Set says |
| MySqlDriver.MySql.Close | pkg/database/mysql/mysql.go:36-48 | without a handle nil; otherwise the pool's error, then the close error |
| MySqlDriver.MySql.Connect | pkg/database/mysql/mysql.go:49-85 | the handle, the attempts left and the error are those of the retry loop over the configured DSN |
| MySqlDriver.MySql.Begin | pkg/database/mysql/mysql.go:86-94 | the new state and error are those of AfterBegin |
| MySqlDriver.MySql.Commit | pkg/database/mysql/mysql.go:95-106 | the new state and error are those of AfterFinish with the commit's answer |
| MySqlDriver.MySql.Rollback | pkg/database/mysql/mysql.go:107-118 | the new state and error are those of AfterFinish with the rollback's answer |
| MySqlDriver.MySql.GetDB | pkg/database/mysql/mysql.go:126-131 | the handle GetDB answers in the current state |
| MySqlDriver.ZeroAttemptsConnectsNothing | pkg/database/mysql/mysql.go:49-85 | a driver built with ConnAttempts(0) reports a successful Connect and has no handle |
| LegacyDriver.OrDefault | pkg/database/driver.go:48-51 | a zero setting from the environment becomes the default, any other is kept |
| LegacyDriver.Postgres.constructor | pkg/database/driver.go:143-148 | ten attempts a second apart, no connection and no transaction |
| LegacyDriver.Postgres.Close | pkg/database/driver.go:31-43 | without a handle nil; otherwise the pool's error, then the close error |
| LegacyDriver.Postgres.Connect | pkg/database/driver.go:45-90 | the handle and attempts are those of the retry loop over the environment's DSN; on success the pool's error is returned, or the pool is limited to POSTGRES_DB_MAX_POOL_SIZE (0 meaning 1) |
| LegacyDriver.Postgres.Begin | pkg/database/driver.go:96-104 | the new state and error are those of AfterBegin |
| LegacyDriver.Postgres.Commit | pkg/database/driver.go:106-117 | the new state and error are those of AfterFinish with the commit's answer |
| LegacyDriver.Postgres.Rollback | pkg/database/driver.go:119-130 | the new state and error are those of AfterFinish with the rollback's answer |
| LegacyDriver.Postgres.GetDB | pkg/database/driver.go:136-141 | the handle GetDB answers in the current state |
| LegacyDriver.MySql.constructor | pkg/database/driver.go:262-267 | ten attempts a second apart, no connection and no transaction |
| LegacyDriver.MySql.Close | pkg/database/driver.go:165-177 | without a handle nil; otherwise the pool's error, then the close error |
| LegacyDriver.MySql.Connect | pkg/database/driver.go:178-214 | the handle, the attempts left and the error are those of the retry loop over the environment's DSN |
| LegacyDriver.MySql.Begin | pkg/database/driver.go:215-223 | the new state and error are those of AfterBegin |
| LegacyDriver.MySql.Commit | pkg/database/driver.go:224-235 | the new state and error are those of AfterFinish with the commit's answer |
| LegacyDriver.MySql.Rollback | pkg/database/driver.go:236-247 | the new state and error are those of AfterFinish with the rollback's answer |
| LegacyDriver.MySql.GetDB | pkg/database/driver.go:255-260 | the handle GetDB answers in the current state |
| LegacyDriver.ReconnectAfterFailure | pkg/database/driver.go:186-213 | after a Connect whose every try fails, a second Connect on the same driver reports success without trying |
| LegacyRepository.With | pkg/support/repository/preload.go:21-35 | a preload decodes exactly when its options have the right types; it keeps the relation, the filter when one is given, and the columns or every column |
| LegacyRepository.WithNoOptions | pkg/support/repository/preload.go:21-35 | a preload without options loads every column of the relation, unfiltered |
| LegacyRepository.GetPreload | pkg/support/repository/helper.go:54-67 | no first option gives no preloads, a list is taken as it is, a single preload becomes a list of one, and any other type panics |
| LegacyRepository.GetScopes | pkg/support/repository/helper.go:69-75 | the second option gives the scopes, missing or nil gives none, and any other type panics |
| LegacyRepository.GetSelectColumns | pkg/support/repository/helper.go:77-83 | the third option gives the columns, missing or nil gives every column, and any other type panics |
| LegacyRepository.GetOrders | pkg/support/repository/helper.go:85-91 | the fourth option gives the order only when at least five options were passed; any other type panics |
| LegacyRepository.OrdersNeedFiveOptions | pkg/support/repository/helper.go:85-91 | an order passed as the last of four options is dropped, and taken once a fifth option follows |
| LegacyRepository.GetPage | pkg/support/repository/helper.go:93-104 | the fifth option gives the page, and a missing or zero page reads as 1 |
| LegacyRepository.GetPerPage | pkg/support/repository/helper.go:106-117 | the sixth option gives the page size, and a missing or zero size reads as 10 |
| LegacyRepository.DefaultOptions | pkg/support/repository/helper.go:93-117 | no options decode to page 1 of 10 rows with every column |
| LegacyRepository.EqualIdIsIdClause | pkg/support/repository/repository.go:107 | FindByID's Equal("id", id) renders the primary-key clause |
| LegacyRepository.ApplyPaginate | pkg/support/repository/helper.go:46-52 | with both a page and a size the offset and limit are set and true is returned; otherwise nothing is set |
| LegacyRepository.PageHasRows | pkg/support/repository/helper.go:46-52 | a page holds at most limit rows, and at least one exactly when it is no later than the last page ResolveTotalPages counts |
| LegacyRepository.Repository.constructor | pkg/support/repository/repository.go:11-13 | the repository over the given table and conversions |
| LegacyRepository.Repository.Entities | pkg/support/repository/repository.go:38-40 | each model is converted to its entity, in order |
| LegacyRepository.Repository.CountAndPage | pkg/support/repository/repository.go:26-46 | the first of the two faults is returned with nothing; otherwise the page of selected rows as entities and a paginator over the full count |
| LegacyRepository.Repository.All | pkg/support/repository/repository.go:15-47 | every row counted, then the requested page as entities, with a paginator over the row count |
| LegacyRepository.Repository.AllBy | pkg/support/repository/repository.go:49-83 | the rows the condition selects, counted, then the requested page as entities, with a paginator over that count |
| LegacyRepository.Repository.FirstOf | pkg/support/repository/repository.go:93-101 | the first selected row as an entity; not-found is no entity and no error, other errors are passed on |
| LegacyRepository.Repository.FirstBy | pkg/support/repository/repository.go:85-102 | the first row the condition selects, or none; a not-found error is swallowed |
| LegacyRepository.Repository.FindByID | pkg/support/repository/repository.go:104-121 | an entity exactly when a row has the key, and then that row's entity; a not-found error is swallowed |
| LegacyRepository.Repository.Insert | pkg/support/repository/repository.go:123-131 | on success the entity becomes the stored row, with a generated key when it had none, and the table gains that row; success exactly when the key is free; a failure changes nothing |
| LegacyRepository.Repository.InsertMany | pkg/support/repository/repository.go:133-147 | one batch: either every entity is stored and the list is overwritten with the stored rows, same length, or nothing changes |
| LegacyRepository.Repository.Models | pkg/support/repository/repository.go:135-137 | each entity is converted to its model, in order |
| LegacyRepository.Repository.Update | pkg/support/repository/repository.go:149-157 | a model without a key is refused; otherwise its row is overlaid and the entity re-read from its model; a failure changes nothing |
| LegacyRepository.Repository.Delete | pkg/support/repository/repository.go:159-166 | a model without a key is refused; otherwise the row with its key is gone and nothing else |
| LegacyRepository.Repository.Exists | pkg/support/repository/repository.go:168-179 | true exactly when there is no fault and a row has the key |
| LegacyRepository.Repository.ExistsBy | pkg/support/repository/repository.go:181-191 | true exactly when there is no fault and some row satisfies the condition |
| DbRepository.Param.GetPreload | pkg/support/db_repository/repository.go:55-60 | a nil preload list reads as an empty one, any other is kept |
| DbRepository.Param.GetSelectColumns | pkg/support/db_repository/repository.go:62-67 | a nil column list reads as every column, any other (even empty) is kept |
| DbRepository.Param.GetScopes | pkg/support/db_repository/repository.go:69-74 | a nil scope list reads as an empty one, any other is kept |
| DbRepository.Param.GetPage | pkg/support/db_repository/repository.go:84-89 | page 0 reads as 1 and every other page, negative ones too, is kept; the result is never 0 |
| DbRepository.Param.GetLimit | pkg/support/db_repository/repository.go:91-96 | limit 0 reads as 10 and every other limit is kept; the result is never 0 |
| DbRepository.ZeroParam | pkg/support/db_repository/repository.go:55-96 | the zero Param asks for page 1 of 10 rows, every column, no preloads, no scopes and no condition |
| DbRepository.GettersIdempotent | pkg/support/db_repository/repository.go:55-96 | the getters only fill in defaults: a Param rebuilt from its own getters reads the same |
| DbRepository.WheresOf | pkg/support/db_repository/helper.go:9-13 | a nil condition adds no WHERE clause; any other adds the fragment and arguments its own GetQuery and GetValues render, padding included |
| DbRepository.ApplyCondition | pkg/support/db_repository/helper.go:9-13 | the statement gains exactly the WHERE clauses of WheresOf, the condition's padded as-written rendering, and nothing else changes |
| DbRepository.EqualIdIsIdClause | pkg/support/db_repository/repository.go:193 | FindByID's Equal("id", id) renders the primary-key clause |
| DbRepository.ApplyPaginate | pkg/support/db_repository/helper.go:53-55 | the offset of the page and the limit are always set |
| DbRepository.PaginateOffset | pkg/support/db_repository/repository.go:158 | with a positive limit the offset the repository passes is never negative, since the page it passes is never 0 |
| DbRepository.Repository.constructor | pkg/support/db_repository/repository.go:50-52 | the repository over the given table and conversions |
| DbRepository.Repository.Entities | pkg/support/db_repository/repository.go:112-114 | each model is converted to its entity, in order |
| DbRepository.Repository.Models | pkg/support/db_repository/repository.go:221-223 | each entity is converted to its model, in order |
| DbRepository.Repository.All | pkg/support/db_repository/repository.go:98-117 | every row as an entity, with no condition and no paging; a fault gives no rows |
| DbRepository.Repository.AllBy | pkg/support/db_repository/repository.go:119-139 | the rows the condition's as-written clause selects, as entities, with no paging; a fault gives no rows |
| DbRepository.Repository.AllByWithPaginate | pkg/support/db_repository/repository.go:141-169 | the first of the two faults and no page list; otherwise the window the page and limit select out of the rows the condition's as-written clause matches, with the page, the limit and the full count |
| DbRepository.Repository.FirstOf | pkg/support/db_repository/repository.go:179-187 | the first selected row as an entity; not-found is no entity and no error, other errors are passed on |
| DbRepository.Repository.FirstBy | pkg/support/db_repository/repository.go:171-188 | the first row the condition's as-written clause selects, or none; a not-found error is swallowed |
| DbRepository.Repository.FindByID | pkg/support/db_repository/repository.go:190-207 | an entity exactly when a row has the key, and then that row's entity; a not-found error is swallowed |
| DbRepository.Repository.Insert | pkg/support/db_repository/repository.go:209-217 | on success the entity becomes the stored row, with a generated key when it had none; success exactly when the key is free; a failure changes nothing |
| DbRepository.Repository.InsertMany | pkg/support/db_repository/repository.go:219-233 | one batch: either every entity is stored and the list is overwritten with the stored rows, same length, or nothing changes |
| DbRepository.Repository.Update | pkg/support/db_repository/repository.go:235-243 | a model without a key is refused; otherwise its row is overlaid and the entity re-read from its model; a failure changes nothing |
| DbRepository.Repository.Delete | pkg/support/db_repository/repository.go:245-252 | a model without a key is refused; otherwise the row with its key is gone and nothing else |
| DbRepository.Repository.Exists | pkg/support/db_repository/repository.go:254-265 | true exactly when there is no fault and a row has the key |
| DbRepository.Repository.ExistsBy | pkg/support/db_repository/repository.go:267-277 | true exactly when there is no fault and some row satisfies the condition's as-written clause; a nil condition selects every row |
| GormStore.Statement.Where | pkg/support/repository/helper.go:8-10 | a WHERE clause is appended after the ones already there |
| GormStore.Statement.Offset | pkg/support/repository/helper.go:46-52 | the statement's offset is set |
| GormStore.Statement.Limit | pkg/support/repository/helper.go:46-52 | the statement's limit is set |
| GormStore.Window | pkg/support/repository/helper.go:46-52 | OFFSET and LIMIT cut the selected rows to those from the offset (a negative one reading as 0) on, at most limit of them, in order |
| GormStore.Table.Matching | pkg/support/repository/repository.go:54-61 | the rows a statement's WHERE clauses select, in key order: only satisfying rows, none exactly when no row satisfies, and the first is the first satisfying row |
| GormStore.Table.MatchingEverything | pkg/support/repository/repository.go:15-26 | a statement without WHERE clauses selects every row |
| GormStore.Table.IdMatches | pkg/support/repository/repository.go:104-121 | in a sorted table the primary-key clause selects at most one row, exactly when a row has the key, and that row |
| GormStore.Table.InsertSorted | pkg/support/repository/repository.go:123-131 | the new row goes where its key belongs: key order is kept and the table grows by one |
| GormStore.Table.InsertFacts | pkg/support/repository/repository.go:123-131 | an insertion adds exactly the row and its key, keeps every other row and key, and keeps the key bound |
| GormStore.Table.RemoveKey | pkg/support/repository/repository.go:159-166 | no row with the key is left |
| GormStore.Table.RemoveFacts | pkg/support/repository/repository.go:159-166 | a removal keeps key order, drops the key and keeps every other key and the key bound |
| GormStore.Table.UpdateKey | pkg/support/repository/repository.go:149-157 | only the row with the model's key is overlaid; every other row stays |
| GormStore.Table.UpdateFacts | pkg/support/repository/repository.go:149-157 | an update keeps key order, the set of keys and the key bound |
| GormStore.Table.FirstMatching | pkg/support/repository/repository.go:85-102 | none exactly when no row is selected, otherwise the first selected row in key order |
| GormStore.Table.Count | pkg/support/repository/repository.go:59-61 | the number of selected rows, or the fault and 0 |
| GormStore.Table.Any | pkg/support/repository/repository.go:168-179 | true exactly when there is no fault and some row is selected |
| GormStore.Table.Find | pkg/support/repository/repository.go:70-72 | the selected rows cut to the statement's window, or the fault and nothing |
| GormStore.Table.First | pkg/support/repository/repository.go:93-101 | the first selected row, or gorm's record-not-found error when there is none; a fault is passed on |
| GormStore.Table.Create | pkg/support/repository/repository.go:123-131 | a free key (or a generated one for key 0) stores the row in key order; a taken key is a duplicate-key error; an error changes nothing |
| GormStore.Table.InsertAll | pkg/support/repository/repository.go:133-147 | a batch that succeeds leaves a sorted table below the new key bound and one stored model per input |
| GormStore.Table.InsertAllGenerated | pkg/support/repository/repository.go:133-147 | a batch whose models all have zero keys never fails |
| GormStore.Table.InsertAllStored | pkg/support/repository/repository.go:133-147 | the stored models are the batch with keys filled in, and the rows are the old ones and those |
| GormStore.Table.InsertAllKeys | pkg/support/repository/repository.go:133-147 | the stored keys are new to the table and distinct from each other |
| GormStore.Table.CreateMany | pkg/support/repository/repository.go:133-147 | either the whole batch is stored as InsertAll says, or nothing changes and the error is the fault or a duplicate key |
| GormStore.Table.Updates | pkg/support/repository/repository.go:149-157 | a model without a key is refused with gorm's missing-WHERE error; otherwise its row is overlaid |
| GormStore.Table.Delete | pkg/support/repository/repository.go:159-166 | a model without a key is refused with gorm's missing-WHERE error; otherwise the rows with its key are removed |
| Disks.PublicDisk.Url | pkg/filesystem/disk_public.go:10-15 | no base URL gives ""; otherwise the base without trailing slashes, then "/", then the path unchanged |
| Disks.S3Disk.Url | pkg/filesystem/disk_s3.go:10-15 | the same URL rule as the public disk |
| Disks.NewS3Disk | pkg/filesystem/disk_s3.go:17-24 | the constructor builds a public disk holding the URL |
| Disks.UrlsAgree | pkg/filesystem/disk_s3.go:10-24 | both URL methods agree, so the disk NewS3Disk returns answers as an S3 disk would |
| Disks.SlashOnlyBase | pkg/filesystem/disk_public.go:10-15 | a base URL made only of slashes still yields "/" and the path |
| Errors.AtMostOneKind | pkg/error/error.go:20-30 | no error answers two of the kind predicates |
| Errors.NewDatasource | pkg/error/error.go:32-37 | a datasource error, of no other kind, carrying the wrapped error and its message |
| Errors.NewDomain | pkg/error/error.go:39-44 | a domain error, of no other kind, carrying the wrapped error and its message |
| Errors.NewTransport | pkg/error/error.go:46-51 | a transport error, of no other kind, carrying the wrapped error and its message |
| Errors.ExactlyOneKind | pkg/error/contract.go:3-7 | an error built by a constructor answers exactly one kind predicate |
| FilesystemHelper.PathPreFixer.PrefixPath | pkg/filesystem/helper/path_prefixer.go:12-14 | the result starts with the prefix and continues with the path minus its leading slashes |
| FilesystemHelper.PathPreFixer.StripPrefix | pkg/filesystem/helper/path_prefixer.go:16-18 | the result is the path with as many leading characters dropped as the prefix has |
| FilesystemHelper.PathPreFixer.StripDirectoryPrefix | pkg/filesystem/helper/path_prefixer.go:20-22 | the stripped path, cut before a trailing slash: it never ends in a slash |
| FilesystemHelper.PathPreFixer.PrefixDirectoryPath | pkg/filesystem/helper/path_prefixer.go:24-32 | the prefixed path without trailing slashes, ending in the separator unless it is empty |
| FilesystemHelper.PathPreFixer.StripTrailingSeparator | pkg/filesystem/helper/path_prefixer.go:34-36 | a prefix of the path that no longer ends in the separator |
| FilesystemHelper.NewPreFixer | pkg/filesystem/helper/path_prefixer.go:38-48 | the prefix loses its trailing slashes and gains one separator unless it became empty |
| FilesystemHelper.PrefixRoundTrip | pkg/filesystem/helper/path_prefixer.go:12-18 | stripping the prefix from a prefixed path gives the path without its leading slashes |
| FilesystemHelper.DirectoryRoundTrip | pkg/filesystem/helper/path_prefixer.go:20-32 | with a slash separator, a prefixed directory path strips back to the directory |
| FilesystemHelper.StorageFixer | pkg/filesystem/helper/path_prefixer_test.go:7-11 | the test fixture's prefixer has prefix "storage/" |
| FilesystemHelper.PrefixPathExample | pkg/filesystem/helper/path_prefixer_test.go:13-23 | the PrefixPath test case |
| FilesystemHelper.StripPrefixExample | pkg/filesystem/helper/path_prefixer_test.go:25-35 | the StripPrefix test case |
| FilesystemHelper.StripDirectoryPrefixExample | pkg/filesystem/helper/path_prefixer_test.go:37-47 | the StripDirectoryPrefix test case |
| FilesystemHelper.PrefixDirectoryPathExamples | pkg/filesystem/helper/path_prefixer_test.go:49-68 | both PrefixDirectoryPath test cases |
| FilesystemHelper.GetDirectoryPath | pkg/filesystem/helper/s3_path_helper.go:8-14 | a prefix of the path without trailing slashes, empty exactly when the path is all slashes |
| FilesystemHelper.GetDirectoryPathIdempotent | pkg/filesystem/helper/s3_path_helper.go:8-14 | taking the directory path twice changes nothing |
| FinderEntities.IntPtr | internal/finder/entities/file.go:11 | an optional size becomes a pointer that is nil exactly when the size is absent |
| FinderEntities.File.ToMap | internal/finder/entities/file.go:17-28 | exactly the eight keys, "type" is "file", and each field is copied |
| FinderEntities.Directory.ToMap | internal/finder/entities/directory.go:11-18 | exactly the four keys, "type" is "dir", and each field is copied |
| FinderEntities.ToMapInjective | internal/finder/entities/file.go:17-28 | two entries with equal maps are equal: the projection loses nothing |
| FinderEntities.FileIsNotDirectory | internal/finder/entities/directory.go:11-18 | a file's map never equals a directory's map |
| FinderPaths.CutSet | internal/finder/datasource/path_helper.go:13-16 | a string first argument is the cutset; otherwise both slashes are |
| FinderPaths.PathHelper.StripSlash | internal/finder/datasource/path_helper.go:12-18 | a piece of the path that neither starts nor ends with a cutset character |
| FinderPaths.StripSlashIdempotent | internal/finder/datasource/path_helper.go:12-18 | stripping twice with the same cutset changes nothing |
| FinderPaths.DirPathOfConcat | internal/finder/datasource/path_helper.go:20-32 | DirPath of a directory joined with a name gives back the directory, when no part holds the separator |
| FinderPaths.ConcatExample | internal/finder/datasource/path_helper_test.go:65-76 | the Concat test case |
| FinderPaths.DirPathExample | internal/finder/datasource/path_helper_test.go:50-55 | the DirPath test case with a directory |
| FinderPaths.DirPathOfNameExample | internal/finder/datasource/path_helper_test.go:57-62 | the DirPath test case with a bare file name |
| FinderPaths.StripSlashOfPadded | internal/finder/datasource/path_helper.go:12-18 | a middle part padded with cutset characters on both sides strips back to that middle |
| FinderPaths.StripSlashExample | internal/finder/datasource/path_helper_test.go:24-30 | the StripSlash test case with a leading "./" |
| FinderPaths.StripSlashDirectoryExample | internal/finder/datasource/path_helper_test.go:32-37 | the StripSlash test case with a trailing slash |
| FinderPaths.FileTypesDisjoint | internal/finder/datasource/file_type_helper.go:8-14 | no mime type is both an image and a video, and a bare "image" is neither |
| FinderUseCase.TrimSlash | internal/finder/usecase/finder_usecase.go:224-227 | a piece of the path that neither starts nor ends with '/' |
| FinderUseCase.LastSegment | internal/finder/usecase/finder_usecase.go:243-245 | the characters after the last '/' |
| FinderUseCase.BaseName | internal/finder/usecase/finder_usecase.go:243-245 | path.Base: "." for "", "/" for a path of slashes only, otherwise a non-empty name without '/' |
| FinderUseCase.Check | internal/finder/usecase/finder_usecase.go:24-30 | the check passes exactly when the repository answers without error and existence is as wanted; an error is passed on, a wrong answer is a domain error |
| FinderUseCase.Run | internal/finder/usecase/finder_usecase.go:46-50 | a failed check makes no request and returns its error; a passed check makes the request and returns its answer |
| FinderUseCase.Target | internal/finder/usecase/finder_usecase.go:35-38 | the name alone when the trimmed directory is empty, otherwise directory, '/', name |
| FinderUseCase.GetContents | internal/finder/usecase/finder_usecase.go:23-32 | the contents are listed exactly when the directory exists; a missing one is "path not exist" |
| FinderUseCase.CreateDirectory | internal/finder/usecase/finder_usecase.go:34-51 | the directory is made exactly when the target does not exist; an existing one is "path already exist" |
| FinderUseCase.Thumbnail | internal/finder/usecase/finder_usecase.go:53-62 | the thumbnail is asked for exactly when the file exists |
| FinderUseCase.Preview | internal/finder/usecase/finder_usecase.go:64-74 | the preview is asked for exactly when the file exists |
| FinderUseCase.Upload | internal/finder/usecase/finder_usecase.go:76-98 | the upload happens exactly when the target file does not exist, and the repository gets the directory as given |
| FinderUseCase.RenameTarget | internal/finder/usecase/finder_usecase.go:104-109 | the old path's directory with the new name, or the new name alone |
| FinderUseCase.TransferTarget | internal/finder/usecase/finder_usecase.go:174 | the destination as given, '/', and the item's base name |
| FinderUseCase.MoveCheck | internal/finder/usecase/finder_usecase.go:115-129 | one move passes exactly when its source exists and its target does not |
| FinderUseCase.CollectSucceeds | internal/finder/usecase/finder_usecase.go:100-132 | a batch goes through exactly when every move it does not skip passes its checks |
| FinderUseCase.CollectMap | internal/finder/usecase/finder_usecase.go:100-132 | a batch that goes through maps every unskipped source to its target and nothing else |
| FinderUseCase.CollectMoves | internal/finder/usecase/finder_usecase.go:100-132 | the loop computes the collected map, or stops at the first failed check |
| FinderUseCase.PrefixStops | internal/finder/usecase/finder_usecase.go:115-121 | once a prefix of a batch has failed, the whole batch fails with the same error |
| FinderUseCase.RunBatch | internal/finder/usecase/finder_usecase.go:134-138 | the repository is asked only when the batch passed |
| FinderUseCase.Rename | internal/finder/usecase/finder_usecase.go:100-139 | moves whose new path is the old one are skipped; the rest are checked in order and renamed together |
| FinderUseCase.Copy | internal/finder/usecase/finder_usecase.go:163-191 | every item is checked in order and copied under its base name into the destination |
| FinderUseCase.Cut | internal/finder/usecase/finder_usecase.go:193-222 | every item is checked in order and moved under its base name into the destination |
| FinderUseCase.DeleteCheckSucceeds | internal/finder/usecase/finder_usecase.go:141-153 | the checks pass exactly when every item exists |
| FinderUseCase.Delete | internal/finder/usecase/finder_usecase.go:141-161 | every item is checked before any is deleted, and the request names them all in order |
| FinderUseCase.DeleteCheckStops | internal/finder/usecase/finder_usecase.go:143-150 | once a prefix of the items fails its check, the whole batch fails with the same error |
| FinderUseCase.RenameStaysInDirectory | internal/finder/usecase/finder_usecase.go:100-109 | a renamed item stays in its directory when the new name has no '/' |
| HttpParams.GetPaginateParams | pkg/support/http/params.go:11-39 | any validation error gives 0, 0 and the errors; otherwise no errors, a missing page is 1, a missing per-page is 10, and a given value is what Atoi reads |
| HttpParams.DefaultsParse | pkg/support/http/params.go:27-36 | the default texts read as 1 and 10 without error |
| HttpParams.PaginateReadsNumbers | pkg/support/http/params.go:11-39 | decimal numbers that pass validation come back as themselves |
| HttpParams.SortField | pkg/support/http/params.go:52-56 | the field of a term is the term without its leading '-' |
| HttpParams.SortDir | pkg/support/http/params.go:51-55 | "desc" exactly when the term starts with '-', "asc" exactly when it does not |
| HttpParams.SortTerms | pkg/support/http/params.go:45-49 | "" and "-" give no terms |
| HttpParams.GetSortParams | pkg/support/http/params.go:41-61 | the terms, split at ',', are written into the map in order |
| HttpParams.SortsKeys | pkg/support/http/params.go:41-61 | the sorted fields are exactly the fields the terms name |
| HttpParams.SortsDirections | pkg/support/http/params.go:51-57 | every direction is "asc" or "desc" |
| HttpParams.SortsLastWins | pkg/support/http/params.go:50-58 | the last term naming a field decides its direction |
| HttpParams.SortTermsExample | pkg/support/http/params.go:49 | "name,-id" splits into "name" and "-id" |
| HttpParams.SortExample | pkg/support/http/params.go:41-61 | "name,-id" sorts the name ascending and the id descending |
| HttpParams.FilterValue | pkg/support/http/params.go:67-71 | the first value of the key's "filters[...]" query entry, or "" |
| HttpParams.GetFilterParams | pkg/support/http/params.go:63-74 | exactly the requested keys are present, each with its filter value |
| HttpParams.IdKey | pkg/support/http/params.go:77-81 | a string first argument names the route parameter; otherwise it is "id" |
| HttpParams.GetIDRouteParam | pkg/support/http/params.go:76-96 | a validation failure gives 0 and the errors under the key; otherwise the number Atoi reads and no errors |
| HttpParams.MergeErrorValidate | pkg/support/http/helper.go:33-44 | the loop computes the maps merged in order |
| HttpParams.MergedKeys | pkg/support/http/helper.go:33-44 | the merged fields are the union of the inputs' fields |
| HttpParams.MergedLastWins | pkg/support/http/helper.go:39-41 | a field takes the messages of the last map that has it |
| HttpParams.MergedSkipsEmpty | pkg/support/http/helper.go:36-38 | an empty map adds nothing wherever it stands, and no maps merge to nothing |
| GoStrconv.Atoi | pkg/support/http/params.go:35-36 | a syntax error gives 0; any other result comes from an optionally signed string of digits, and the value is an int64 |
| GoStrconv.AtoiFormatInt | pkg/support/http/params.go:93 | Atoi reads back the decimal text of every int64 |
| LocalDatasource.LocalRepo.IsIgnore | internal/finder/datasource/local_datasource.go:214-221 | true exactly when the name is one of the ignored names |
| LocalDatasource.LocalRepo.FileEntity | internal/finder/datasource/local_datasource.go:34-44 | a listed file's fields are copied and its URL is the disk's URL for its path |
| LocalDatasource.LocalRepo.DirEntity | internal/finder/datasource/local_datasource.go:49-55 | a listed directory's fields are copied |
| LocalDatasource.LocalRepo.GetContents | internal/finder/datasource/local_datasource.go:25-57 | a failed listing gives no entries and a datasource error; otherwise no error |
| LocalDatasource.LocalRepo.Exist | internal/finder/datasource/local_datasource.go:59-73 | the disk's error becomes a datasource error and false; otherwise the disk's answer |
| LocalDatasource.LocalRepo.UploadPath | internal/finder/datasource/local_datasource.go:127 | the stripped directory, the separator, then the file name |
| LocalDatasource.GetContentsShowsExactly | internal/finder/datasource/local_datasource.go:25-57 | every listed entry that is not ignored is shown, no ignored entry is, and nothing is added |
| LocalDatasource.NothingIgnored | internal/finder/datasource/local_datasource.go:30-44 | without ignored names every file comes through, in order |
| LocalDatasource.KeptAll | pkg/support/slices/slices.go:25-33 | filtering by a predicate every element meets keeps the list |
| LocalDatasource.Performed | internal/finder/datasource/local_datasource.go:158-196 | the number of leading items carried out before the first failure |
| LocalDatasource.PerformedIs | internal/finder/datasource/local_datasource.go:158-196 | the successes before a failure (or the end) are exactly what Performed counts |
| LocalDatasource.RunUntilError | internal/finder/datasource/local_datasource.go:158-196 | the loop carries out the items until the first failure, which it returns as a datasource error; no error exactly when all are done |
| LocalDatasource.PerformedConcat | internal/finder/datasource/local_datasource.go:168-176 | a batch in two parts runs the second part only when the first had no failure |
| Slices.FoldLeftConcat | pkg/support/slices/slices.go:13-19 | folding a concatenation folds the second part from the fold of the first |
| Slices.KeptMembers | pkg/support/slices/slices.go:25-33 | filtering keeps exactly the elements that satisfy the predicate and never lengthens the list |
| Slices.KeptIdempotent | pkg/support/slices/slices.go:25-33 | filtering twice by the same predicate is filtering once |
| Slices.FirstsFacts | pkg/support/slices/slices.go:51-65 | the unique list has the same elements as the input and no repeats |
| Slices.FirstsOfDistinct | pkg/support/slices/slices.go:51-65 | a list without repeats is its own unique list |
| Slices.CountWhere | pkg/support/slices/slices.go:89-96 | the count is at most the length, and equals it exactly when every element satisfies the predicate |
| Slices.Map | pkg/support/slices/slices.go:5-11 | one result per element, each the function of that element, in order |
| Slices.Reduce | pkg/support/slices/slices.go:13-19 | the left fold from the zero value |
| Slices.RemoveAt | pkg/support/slices/slices.go:21-23 | the slice loses the element at the index, the rest shifted left in the same array, and the cell past the new length keeps its old value |
| Slices.Filter | pkg/support/slices/slices.go:25-33 | the elements that satisfy the predicate, in order |
| Slices.FirstBy | pkg/support/slices/slices.go:35-42 | nil exactly when no element satisfies the predicate; otherwise the first that does |
| Slices.First | pkg/support/slices/slices.go:44-49 | nil exactly for an empty slice; otherwise the first element |
| Slices.Unique | pkg/support/slices/slices.go:51-65 | the first occurrence of each element, in order |
| Slices.Contains | pkg/support/slices/slices.go:67-74 | true exactly when the element occurs |
| Slices.Some | pkg/support/slices/slices.go:80-87 | true exactly when some element satisfies the predicate |
| Slices.Always | pkg/support/slices/slices.go:89-97 | true exactly when every element satisfies the predicate |
| LogHelper.GetLogLevel | pkg/log/helper.go:23-40 | Error, Warn and Debug exactly for their names in any case, and only the four levels occur |
| LogHelper.LowerCharIdempotent | pkg/log/helper.go:26 | lower-casing a character twice is lower-casing it once |
| LogHelper.LevelIgnoresCase | pkg/log/helper.go:26 | lower-casing the name first changes no level |
| LogHelper.UnknownIsInfo | pkg/log/helper.go:35-36 | any other name, the empty one among them, selects Info, and "WARN" selects Warn |
| LogHelper.Ext | pkg/log/helper.go:48 | filepath.Ext: a suffix of the path that is empty or a '.' followed by no '.' and no '/' |
| LogHelper.LogExt | pkg/log/helper.go:47-48 | a name ending in ".log" has exactly the extension ".log" |
| LogHelper.ExtOfDot | pkg/log/helper.go:48 | a final dot is the whole extension |
| LogHelper.ExtAppend | pkg/log/helper.go:48 | once there is an extension, any character other than '.' and '/' extends it |
| LogHelper.NormalizedFilename | pkg/log/helper.go:46-51 | a name ending in ".log" loses exactly ".log"; any other name is kept |
| LogHelper.NormalizedFilenameExamples | pkg/log/helper.go:46-51 | "app.log" becomes "app" and "app.txt" stays |
| LoggerHelper.GetLogLevel | pkg/logger/helper.go:23-40 | Info exactly for names other than error, warn and debug in any case |
| LoggerHelper.AgreesWithLog | pkg/logger/helper.go:23-40 | both packages map every name to the same level |
| Login.Stamped | internal/admin/usecase/usecase.go:44-46 | the admin and auth usecases set the last-login time on the user; the domain usecase passes the user as read; nothing else changes |
| Login.Login | internal/admin/usecase/usecase.go:24-53 | success exactly when the user is found without error, the password matches, the token is issued and the update succeeds; then the issued token; a token is asked for only after the password matched and the time is recorded only after the token was issued |
| Login.LoginFailures | internal/auth/usecase/usecase.go:25-54 | each error answer, with the calls made before it |
| Login.StampingOnlyChangesTheUpdate | internal/auth/domain/usecase/user_usecase.go:26-53 | the three usecases give the same answers and make the same calls, apart from the user the update receives |
| Login.IssueAdminToken | internal/admin/usecase/usecase.go:38 | the token manager's answer: a token exactly when no error, issued to the user |
| Login.AdminLoginIssuesOwnToken | internal/admin/usecase/usecase.go:24-53 | an admin who logs in gets their own unexpired token, and their last login is the login time |
| Login.AdminGetProfile | internal/admin/usecase/usecase.go:59-72 | the profile is looked up exactly when the token checks out, by the token's admin id; otherwise the check's error |
| Login.ProfileNeedsLiveToken | internal/admin/usecase/usecase.go:59-72 | an unknown or expired token never reaches the user lookup |
| Paginate.ResolveTotalPages | pkg/support/paginate/paginator.go:26-43 | no pages without rows or without a page size; otherwise the fewest pages of limit rows that hold every row |
| Paginate.TotalPagesUnique | pkg/support/paginate/paginator.go:26-43 | that ceiling property pins the page count down uniquely |
| Paginate.Populate | pkg/support/paginate/paginator.go:10-17 | the page, limit and total are kept and the page count is as ResolveTotalPages says |
| Paginate.ResolveOffset | pkg/support/paginate/paginator.go:19-24 | a negative page reads as page 1 and skips nothing |
| Paginate.ResolveOffsetPageZero | pkg/support/paginate/paginator.go:19-24 | page 0 is not mapped to page 1: it skips a negative number of rows, unlike page -1 |
| Paginate.ResolveOffsetIntended | pkg/support/paginate/paginator.go:19-24 | every page below 1 skips nothing, and no offset is negative |
| Paginate.OffsetsAgreeOffPageZero | pkg/support/paginate/paginator.go:19-24 | the two offsets agree on every page but page 0 |
| Paginate.ConsecutivePages | pkg/support/paginate/paginator.go:19-24 | consecutive pages are adjacent windows of limit rows |
| Paginate.RowOnPage | pkg/support/paginate/paginator.go:19-43 | every row of a non-empty result lies on exactly one page between 1 and the page count |
| PageList.Populate | pkg/support/page_list/page_list.go:17-24 | the page, limit and total are kept, and the page count is the fewest pages that hold every row |
| PageList.NewPageList | pkg/support/page_list/page_list.go:26-31 | the rows are kept as given beside the summary of the page |
| GormStore.Table.InsertAllFacts | pkg/support/repository/repository.go:133-147 | a successful batch stores each model with its key filled in, on keys new to the table and distinct from each other, and the rows are exactly the old ones and those |

## Left out

- The pause between Connect attempts (`time.Sleep(connTimeout)`) is not modelled. The timeout is stored, and every attempt's answer is a parameter. Log lines printed while retrying are left out too.
- The gorm internals are not modelled: SQL generation, preload mechanics, associations and `Omit`. ApplyEagerLoad, ApplyScopes, ApplyOrder and ApplySelectColumns call into gorm and are left out. Their option decoding (the `Get*` helpers and the `Param` getters) is modelled, and so are ApplyCondition and ApplyPaginate. `GormStore` stands for them as an abstract query builder and table. The meaning of a WHERE fragment and every backend failure are parameters.
- LegacyRepository.Repository.CountAndPage, All, AllBy, FirstBy and FindByID, and DbRepository.Repository.All, AllBy, AllByWithPaginate and FirstBy: their results are stated for the table in key order with no scope applied. The preloads, scopes, column selection and ORDER BY these methods decode are not applied to the rows, since ApplyEagerLoad, ApplyScopes, ApplySelectColumns and ApplyOrder are left out. With scopes or orders given, the source may return other rows or another order.
- LegacyRepository.Repository.CountAndPage, All, AllBy, FirstBy and FindByID require `Decodes(vars)`. An option of the wrong dynamic type makes the source's `Get*` type assertions panic (pkg/support/repository/helper.go:54-117). The `Get*` functions model that panic, but these methods do not take the panicking path.
- PostgresDriver.Postgres.Connect, Begin, and LegacyDriver.Postgres.Connect, Begin, LegacyDriver.MySql.Begin: each requires a handle (`db.Some?`), or for Connect, a handle or an attempt left. Without one, the source dereferences a nil `p.db`: `p.db.DB()` after zero attempts, or `p.db.Begin()` before any Connect. The model does not represent that panic. MySqlDriver.MySql.Begin has the same requires.
- `pkg/support/helper/helper.go` is not part of this model. Its ResolveOffset and ResolveTotalPages are taken to equal those of `pkg/support/paginate`.
- `pkg/database/database.go` is a `sync.Once` factory with no logic of its own and is not modelled. This includes its call of Connect on a nil driver.
- `pkg/hashing/hasing.go` is likewise a `sync.Once` factory and is not modelled.
- The disk I/O behind the finder and the public disk is left out: listing, existence checks, renames, deletes, copies, moves, thumbnails, previews, directory creation and uploads. Their answers are parameters. The use cases and the local datasource are modelled up to the request they hand on.
- The unused sort arguments of the local datasource's GetContents are absent.
- The struct validator (go-playground/validator) is a parameter that returns the field errors it finds.
- The application's base URL and the disks' base URLs come from configuration in the source and are parameters.
- The MySQL driver reads `maxConnection` and never uses it. The model stores it and proves nothing about it.
- The finder's path separator is a single character. The source allows any string, but it is always `/` there.
- The admin access token's `ExpiredIn` is a float64 in the source and a `real` here. Float rounding is not modelled. Clock readings are whole Unix seconds, so `math.Floor` of the remaining seconds is exact. CreateToken's first two clock readings (the creation time and the base of the expiry) are taken as one reading.
- `AdminTokens.AtoiError` writes the input between plain quotes. strconv's `Quote` escaping of unusual characters is not modelled.
- The token lifetime is `now + minutes * 60` on unbounded integers. The int64 overflow of `time.Duration` for huge timeouts is not modelled.
- Some members of the auth use cases and the repositories only hand the call to a collaborator and return its answer. These are Logout, RefreshToken and GetProfile of the user use cases, and the plain List/Get pass-throughs. They are not modelled apart from `Login.AdminGetProfile`.
- `slices.Compare` is `reflect.DeepEqual` and is not modelled.
- From the use case's side, the category repository is a map from id to category.
- The transaction bracketing that the HTTP controllers put around the use cases belongs to the transport layer and is not modelled.
- `LogHelper.GetLogLevel` lowers ASCII letters only. Go's Unicode case mapping is not modelled.
- logrus, its hooks, log-file creation and the caller lookup are I/O and are not modelled. These are newLogrus, createLogFile, getCalledFile and setupHook.
- The bcrypt hasher's Make and Check delegate to the bcrypt library. Only their defaults and their error wrapping are modelled.
- `argon2.IDKey` and `rand.Read` are parameters of the Argon2 hasher.
- The byte offset that `base64.CorruptInputError` reports is not modelled. Only the fact that decoding fails is.
- `FilesystemHelper.PathPreFixer.StripPrefix` requires the path to be at least as long as the prefix. On a shorter path, Go's slice expression panics.
- Go's map iteration order is unspecified. Wherever the source ranges over a map whose order shows in the result, the map is given as a sequence of its entries.
- Concurrency (goroutines, channels, `sync.Mutex`), caching, Redis and JWT signing and parsing are not modelled. A signer function stands for the JWT library.

## Findings

| source | as written | input that shows it | evidently intended | confidence | as-written member | corrected member |
|---|---|---|---|---|---|---|
| pkg/support/repository/condition.go:105-111 | LessOrEqual builds the operator `>=` | `LessOrEqual("age", 3)` renders `age >= ?` | `age <= ?` | not executed | LegacyCondition.LessOrEqualIsGreaterOrEqual | LegacyCondition.LessOrEqualIntended |
| pkg/support/repository/condition.go:191-197 | NotIn renders like In | `NotIn("id", [1, 2])` renders the same fragment and arguments as `In("id", [1, 2])` | a `NOT IN` list | not executed | LegacyCondition.NotInRendersIn | LegacyCondition.NotInIntended |
| pkg/support/db_repository/condition.go:202-208 | NotIn renders like In | `NotIn("id", [1, 2])` renders the same fragment and arguments as `In("id", [1, 2])` | a `NOT IN` list | not executed | DbCondition.NotInRendersIn | DbCondition.NotInIntended |
| pkg/support/db_repository/condition.go:13-38 | the join pre-sizes its slices with `make(_, n)` and then appends to them; the repository passes this rendering to gorm, so every db_repository query with a join condition, the category listing included, binds nils in front of its real arguments | TestAnd's two conditions render `( AND  AND name = ? AND age != ?)` with arguments `[nil, nil, "test", 30]` | `(name = ? AND age != ?)` with `["test", 30]`, as the test expects | not executed | DbCondition.AndAsWrittenFailsTest | ConditionTree.PlaceholderCount |
| pkg/support/paginate/paginator.go:19-24 | only a negative page is replaced by 1 | `ResolveOffset(0, 10)` is `-10` | offset 0 for page 0 | not executed | Paginate.ResolveOffsetPageZero | Paginate.ResolveOffsetIntended |
| pkg/database/postgres/postgres.go:95-103 | Begin does not check for an open transaction | Begin twice: the first transaction is replaced and never finished | a second Begin is refused while one is open | not executed | DbBackend.BeginDiscardsOpenTransaction | DbBackend.GuardedBeginKeepsTransaction |
| pkg/database/mysql/mysql.go:49-85 | with no attempt left, the retry loop does not run and Connect returns nil | `ConnAttempts(0)`: Connect reports success and there is no database handle | an error when no connection was made | not executed | MySqlDriver.ZeroAttemptsConnectsNothing | DbBackend.CheckedConnectHasHandle |
| internal/category/transport/http/v1/form_data.go:6 | the form accepts only status 1 or 2, while a category is published at 10 and a draft at 11 | every validated form makes a category neither published nor a draft, so a default category can never be stored | the form accepts the entity's statuses, 10 and 11 | not executed | CategoryUseCase.ValidatedDefaultNeverStored | CategoryUseCase.IntendedDefaultStored |
| internal/admin/usecase/token_manager.go:74-80 | RefreshToken uses the looked-up token without checking that one was found | an unknown token whose lookup returns no error: `authToken.Admin` dereferences nil | an unknown token is reported as an error | not executed | AdminTokens.RefreshUnknownTokenPanics | AdminTokens.RefreshCheckedNeverPanics |
| internal/category/usecase/cat_usecase.go:71-94 | the rules look at the stored category only, never at the requested status | a non-default draft updated with `isDefault = true` and a draft status passes the checks and is stored as a default draft | a category made default must be published | not executed | CategoryUseCase.DraftMadeDefault | CategoryUseCase.UpdateIntendedKeepsDefaultsPublic |
