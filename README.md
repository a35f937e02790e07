# LouerCar in Dafny

LouerCar is a Django car-rental system. Clients register, log in and ask to
rent a car (a `SolicitacaoAluguel`). Staff approve or reject the requests.
Approving one creates an active rental (`Aluguel`) and a payment
(`Pagamento`) awaiting collection. Staff then finalise or cancel rentals and
confirm payments. A rental's status drives its car's status. Users carry tags
(`Tag`, through `UsuarioTag`). Tags are given by role, and they decide which
WhatsApp groups (`Grupo`, through `UsuarioGrupo`) a user may see and join.
Access is controlled by three session decorators, a middleware and, in the
REST API, by scoping each listing to the caller.

This project models that core and proves properties of the model.

- **The database.** It is one value, `Store.State`. Every table is a `Table`: a map from keys to rows, plus the next AutoField key. Each join table is a set of (user, x) pairs, so `unique_together` holds by construction. `Store.State.Valid` states the foreign keys and the unique columns.
- **The views.** Each view is a module-level `method` that takes a `db: Db` and changes it in place. `Store.Db` is a class with the same fields as `Store.State`. Its postcondition ties the new database and the reply to a specification function of the old database, such as `RequestViews.ApproveRequestSpec`. The lemmas beside each specification state what the source promises: what changes, what stays, what a second call does, and that validity is kept.
- **Sessions.** A session is a `Sessions.Session` object whose keys the views write and flush.
- **Time, money and the hash.** Time is an integer number of seconds, with `now` passed in as a parameter. Money is an integer number of cents. Password hashing is an injective stand-in, `HashOf(raw)`.
- **Pure parts.** Forms, decorators, badge maps and day counts are plain functions.

Modules:

- `Common`, `Text`, `Schema`, `Store`, `Sessions`: values, string helpers, the rows, the database and the session.
- `Decorators`, `Middleware`: `user/decorators.py`, `LouerCar/user/middleware.py`.
- `RentalModels`, `RentalForms`: `LouerCar/aluguel/models.py`, `LouerCar/aluguel/forms.py`.
- `RequestViews`, `RentalViews`, `RentalList`: the live definitions of `aluguel/views.py`.
  - In that file, `aprovar_solicitacao` at line 842 and `aluguel_cancelar` at line 801 are the last definitions; the other views are at lines 421-816.
  - The earlier definitions at lines 14-407 are superseded and are not modelled.
  - Lines 817-827 cannot be reached, because they follow a `return`.
- `CarForms`, `CarViews`: `carro/forms.py`, `carro/views.py`.
- `UserModels`, `UserForms`, `UserUtils`, `UserViews`, `AuthViews`: `user/models.py`, `LouerCar/user/forms.py`, `LouerCar/user/utils.py`, `user/views.py`, `LouerCar/user/auth_views.py`.
- `ApiViews`: `LouerCar/api/views.py`.

## Model

| member | source | states |
|---|---|---|
| Text.Upper | carro/forms.py:63 | `str.upper` on ASCII: same length, each character upper-cased, no lower-case letter left |
| Text.Lower | carro/views.py:16-19 | `str.lower` on ASCII, used for the case-insensitive `icontains`: no upper-case letter left |
| Text.Strip | carro/forms.py:63 | `str.strip`: the result is the slice of the input left once only white space is cut from either end, it neither starts nor ends with white space, and it keeps every other character |
| Text.RemoveBlanks | carro/forms.py:66 | `replace(' ', '')`: the result holds every character of the input other than the blank, each as many times as in the input, and no blank |
| Text.RemoveBlanksAppend | carro/forms.py:66 | removing blanks from a concatenation is removing them from each part, so the kept characters stay in their order |
| Store.State.ProfileOf | user/models.py:191 | `PerfilCliente.objects.get(usuario=u)`: a found profile belongs to `u`; none is found iff no profile belongs to `u` |
| Store.State.TagNamed | user/models.py:20 | `Tag.objects.get(nome=n)`: a found tag has name `n`; none is found iff no tag has that name |
| Store.State.UserNamed | user/models.py:82 | `Usuario.objects.get(username=n)`: found iff some user has that username |
| Store.State.PaymentOf | LouerCar/aluguel/models.py:29-33 | `aluguel.pagamento`: the payment of a rental, absent iff no payment refers to it |
| Store.State.TagsOf | user/models.py:127-129 | `get_tags`: exactly the tags with a `UsuarioTag` row for the user |
| Store.State.GroupsJoined | user/models.py:170-176 | exactly the groups with a `UsuarioGrupo` row for the user |
| Store.UserNamedUnique | user/models.py:82 | with usernames unique, the lookup finds the one user of that name |
| Store.ProfileOfUnique | user/models.py:191 | with one profile per user, the lookup finds that profile |
| Store.TagNamedUnique | user/models.py:20 | with tag names unique, the lookup finds the one tag of that name |
| Store.PaymentOfUnique | LouerCar/aluguel/models.py:29-33 | with one payment per rental, the lookup finds it |
| Store.Db.FindProfile | user/models.py:191 | the compiled lookup returns what `ProfileOf` specifies |
| Store.Db.FindTag | user/models.py:20 | the compiled lookup returns what `TagNamed` specifies |
| Store.Db.FindUser | user/models.py:82 | the compiled lookup returns what `UserNamed` specifies |
| Sessions.Session.Flush | LouerCar/user/middleware.py:36 | `session.flush()`: afterwards the session is anonymous |
| Sessions.Session.Store | LouerCar/user/auth_views.py:56-59 | writing the session keys: afterwards the session holds exactly the given values |
| Decorators.ClientRequired | user/decorators.py:49-63 | admits iff a user is logged in; otherwise redirects to login |
| Decorators.StaffRequired | user/decorators.py:27-46 | admits iff logged in and staff; login is tested before the role |
| Decorators.AdminRequired | user/decorators.py:5-24 | an anonymous caller goes to login; only a logged-in caller is admitted |
| Decorators.AdminRequiredIsStaffRequired | user/decorators.py:5-46 | `admin_required` decides exactly as `staff_required`, contrary to its docstring: a staff user who is not a superuser passes it |
| Decorators.StaffGateIsNarrower | user/decorators.py:27-63 | whatever passes the staff gate passes the client gate |
| Middleware.AnyPrefix | LouerCar/user/middleware.py:23 | `any(path.startswith(p))`: true iff some prefix of the list starts the path |
| Middleware.IsPublic | LouerCar/user/middleware.py:11-23 | public iff the path starts with one of the seven listed prefixes |
| Middleware.EveryRootedPathIsPublic | LouerCar/user/middleware.py:12-23 | since "/" is listed, every path starting with "/" is public |
| Middleware.NotPublicMeansUnrooted | LouerCar/user/middleware.py:11-23 | a path is not public iff it is empty or does not start with "/" |
| Middleware.MiddlewareSpec | LouerCar/user/middleware.py:9-42 | non-public and anonymous: redirect to login; a session whose user is gone is flushed and redirected; the view runs otherwise, with the session untouched |
| Middleware.Middleware | LouerCar/user/middleware.py:9-42 | the session object and the decision are those of `MiddlewareSpec` |
| CarForms.NormalisePlate | carro/forms.py:63-66 | the normalised plate has no lower-case letter, no blank and no white space at either end, holds the upper case of each plate character that is not white space, and holds each character of the stripped upper-cased plate other than the blank as many times as that plate does, which fixes the length `CleanPlate` tests |
| CarForms.CleanPlate | carro/forms.py:61-72 | accepts iff the normalised plate has 7 or 8 characters, and then returns it; otherwise a length error |
| CarForms.CleanPlateIdempotent | carro/forms.py:61-72 | cleaning an accepted plate again gives the same result |
| CarForms.NormaliseIsIdempotent | carro/forms.py:63-66 | normalising twice is normalising once |
| CarForms.CleanYear | carro/forms.py:74-85 | accepts iff 1900 <= year <= current year + 1; the lower bound is reported first |
| CarForms.CleanDailyPrice | carro/forms.py:87-93 | accepts iff the price is absent or positive |
| CarViews.CarListed | carro/views.py:11-24 | a car with another status than the one asked for is left out; any other car is listed iff its model or plate contains the query, ignoring case |
| CarViews.StatusFilterOnlyNarrows | carro/views.py:22-24 | the status filter only removes cars, and every car it keeps has that status |
| CarViews.NoFilterListsEveryCar | carro/views.py:11-24 | with no parameter every car is listed |
| CarViews.CarsWithStatus | carro/views.py:28-30 | exactly the cars with the given status |
| CarViews.CarListCounts | carro/views.py:27-30 | the total and the count of each status |
| CarViews.CarCountsAddUp | carro/views.py:27-30 | the three status counts add up to the total |
| CarViews.CarListSpec | carro/views.py:8-42 | refused iff nobody is logged in; otherwise the filtered cars and the counts |
| CarViews.ParseCarStatus | carro/views.py:117-119 | a status is parsed iff the value is one of the three stored names |
| CarViews.ChangeCarStatusSpec | carro/views.py:111-139 | success iff a staff POST names one of the three statuses for an existing car, and then only that car's status changes; otherwise nothing changes |
| CarViews.ChangeCarStatus | carro/views.py:111-139 | the database and the reply are those of `ChangeCarStatusSpec` |
| CarViews.ChangeCarStatusIgnoresRentals | carro/views.py:119-122 | the result does not depend on the rentals, so a car with an active rental can be marked available |
| CarViews.ChangeCarStatusKeepsValid | carro/views.py:119-122 | the change keeps the database valid |
| RentalModels.RequestDays | LouerCar/aluguel/models.py:214-219 | 0 when a date is missing; otherwise at least 1, and the floored day count from one day on |
| RentalModels.RentalDuration | LouerCar/aluguel/models.py:282-287 | 0 when a date is missing; otherwise the floored day count, with no lower bound |
| RentalModels.DaysAgreeFromOneDay | LouerCar/aluguel/models.py:214-219 | from one day on the two counts agree |
| RentalModels.HasPendingPayment | LouerCar/aluguel/models.py:221-225 | true iff the request's created rental has a payment and it is unpaid |
| RentalModels.PaymentBadge | LouerCar/aluguel/models.py:69-78 | each payment status gets its class, `cancelado` and any other value `bg-secondary` |
| RentalModels.RequestBadge | LouerCar/aluguel/models.py:204-212 | each request status gets its class, `cancelado` and any other value `bg-secondary` |
| RentalModels.RentalBadge | LouerCar/aluguel/models.py:273-280 | each rental status gets its class, `cancelado` and any other value `bg-secondary` |
| RentalModels.NewPayment | LouerCar/aluguel/models.py:28-58 | a new payment is PIX and unpaid, with no paid date and no PIX or boleto data |
| RentalModels.CarsAfterSave | LouerCar/aluguel/models.py:297-311 | an active rental's car becomes rented; a closed rental's car becomes available iff no other active rental uses it; only that car's status changes |
| RentalModels.SaveRentalSpec | LouerCar/aluguel/models.py:297-311 | the car hook runs, then the rental row is written under its key or a new one |
| RentalModels.SaveRental | LouerCar/aluguel/models.py:297-311 | the database and the key are those of `SaveRentalSpec` |
| RentalModels.SaveRentalKeepsValid | LouerCar/aluguel/models.py:297-311 | saving keeps the database valid; a new rental gets an unused key; only cars and rentals change |
| RentalModels.SavedRentalIsOnlyActiveWhenCarRented | LouerCar/aluguel/models.py:299-311 | after a save, the car of every active rental is rented, provided it was so before |
| RentalForms.AvailableCars | LouerCar/aluguel/forms.py:43 | the choices are exactly the available cars |
| RentalForms.CleanRequest | LouerCar/aluguel/forms.py:52-77 | passes iff end > start and start >= now (when both are set) and the car is available; the date errors come first |
| RentalForms.ChosenCar | LouerCar/aluguel/forms.py:43-50 | a car id cleans to its car iff it is one of the choices |
| RentalForms.RequestFormValid | LouerCar/aluguel/forms.py:7-77 | valid iff car, start and end are given, the car is available, end > start and start >= now |
| RentalForms.ChoicesMakeCarCheckRedundant | LouerCar/aluguel/forms.py:43-75 | with the choices limited to available cars, `clean` never reports an unavailable car |
| RentalForms.StartAtNowAccepted | LouerCar/aluguel/forms.py:66-69 | a start at `now` passes; a start one second earlier fails |
| RentalForms.RentalFormCars | LouerCar/aluguel/forms.py:134-135 | a new rental may choose only available cars; an edited one any car |
| RentalForms.CleanRental | LouerCar/aluguel/forms.py:147-174 | end > start always; past start and availability only for a new rental |
| RentalForms.EditChecksOnlyDateOrder | LouerCar/aluguel/forms.py:154-172 | editing passes iff the dates are not in the wrong order |
| RentalForms.NewRentalCleanIsRequestClean | LouerCar/aluguel/forms.py:147-174 | for a new rental the rental form decides exactly as the request form |
| RentalForms.CleanValue | LouerCar/aluguel/forms.py:176-182 | passes iff the value is absent or positive |
| RentalList.Listed | aluguel/views.py:623-665 | a rental is listed iff it matches the query and has the status asked for |
| RentalList.NoFilterListsAll | aluguel/views.py:623-665 | with no filter, or empty ones, every rental is listed |
| RentalList.UnknownStatusListsNothing | aluguel/views.py:623-665 | a status no rental can have lists nothing |
| RentalList.StatusFilterNarrows | aluguel/views.py:623-665 | the status filter never adds rentals |
| RentalList.WithStatus | aluguel/views.py:623-665 | exactly the rentals with the given status |
| RentalList.ListTotals | aluguel/views.py:623-665 | the total, the counts per status, and the active value as the sum of the active rentals' values (a sum `SumRemove` shows independent of order), 0 when nothing is active |
| RentalList.CountsAddUp | aluguel/views.py:623-665 | the status counts add up to the total |
| RentalList.RentalListSpec | aluguel/views.py:623-665 | refused iff the staff gate refuses; otherwise the filtered rentals and the totals |
| RentalList.ClosingMovesTotals | aluguel/views.py:783-816 | closing a rental moves it from the active count to its new status and takes its value off the active total |
| RequestViews.ApprovalPayment | aluguel/views.py:872-879 | the approval's payment: the estimate, due 3 days after `now`, PIX, unpaid, with the PIX key and code |
| RequestViews.SubmitRequestSpec | aluguel/views.py:421-472 | success iff a logged-in user with a profile posts a valid form and the URL's car, if any, exists and is available; then one pending request is added: the caller's profile, the form's fields, estimate = daily price x days; a missing URL car is not found, an unavailable one an error, no profile a warning, and nothing is saved |
| RequestViews.SubmitRequest | aluguel/views.py:421-472 | the database and the reply are those of `SubmitRequestSpec` |
| RequestViews.SubmitRequestKeepsValid | aluguel/views.py:421-472 | submitting keeps the database valid; the request gets an unused key |
| RequestViews.CancelRequestSpec | aluguel/views.py:496-526 | success iff a POST by the owner on a pending request, which then becomes cancelled; another client's request is not found; otherwise nothing changes |
| RequestViews.CancelRequest | aluguel/views.py:496-526 | the database and the reply are those of `CancelRequestSpec` |
| RequestViews.RejectRequestSpec | aluguel/views.py:595-616 | success iff a staff POST on a pending request, which then becomes rejected; a request that is not pending gives an error and no change |
| RequestViews.RejectRequest | aluguel/views.py:595-616 | the database and the reply are those of `RejectRequestSpec` |
| RequestViews.RequestStatusKeepsValid | aluguel/views.py:503-522 | a status change of a request keeps the database valid |
| RequestViews.CancelRejectKeepValid | aluguel/views.py:595-616 | cancelling and rejecting keep the database valid |
| RequestViews.ApproveRequestSpec | aluguel/views.py:842-897 | success iff a staff POST on a pending request; then one active rental copying the request, the request approved and linked to it, one payment, and only that car changed, to rented; otherwise nothing changes |
| RequestViews.ApproveRequest | aluguel/views.py:842-897 | the database and the reply are those of `ApproveRequestSpec` |
| RequestViews.ApprovalWrites | aluguel/views.py:856-879 | the approval's writes keep the request keys |
| RequestViews.ApproveRequestKeepsValid | aluguel/views.py:842-897 | approval keeps the database valid and adds exactly one rental and one payment under unused keys |
| RequestViews.ApprovalWritesKeepValid | aluguel/views.py:856-879 | the three writes keep the database valid and each adds one unused key |
| RentalViews.PaymentsWithout | LouerCar/aluguel/models.py:29-33 | the CASCADE: exactly the payments of other rentals remain, unchanged |
| RentalViews.RequestsUnlinked | LouerCar/aluguel/models.py:187-193 | the SET_NULL: requests that created the rental now link to none; everything else is kept |
| RentalViews.DeleteRentalRow | aluguel/views.py:713-731 | `delete()`: the rental goes with its payment, its requests are unlinked, nothing else changes |
| RentalViews.DeleteRentalSpec | aluguel/views.py:713-731 | success iff a staff POST on an existing rental; an active rental's car becomes available; otherwise nothing changes |
| RentalViews.DeleteRental | aluguel/views.py:713-731 | the database and the reply are those of `DeleteRentalSpec` |
| RentalViews.DeleteFreesCarDespiteOtherActive | aluguel/views.py:723-727 | deleting frees the car even when another active rental still uses it |
| RentalViews.DeleteRentalRowKeepsValid | aluguel/views.py:713-731 | the delete with its cascades keeps the database valid |
| RentalViews.DeleteRentalKeepsValid | aluguel/views.py:713-731 | the delete view keeps the database valid |
| RentalViews.ParseRentalStatus | aluguel/views.py:770-774 | a status is parsed iff the value is one of the three stored names |
| RentalViews.SaveWithStatus | aluguel/views.py:770-774 | the rental gets the new status, through `Aluguel.save` and its car hook; nothing else changes |
| RentalViews.ChangeRentalStatusSpec | aluguel/views.py:764-780 | success iff a staff POST names one of the three statuses, whatever the current one; otherwise nothing changes |
| RentalViews.ChangeRentalStatus | aluguel/views.py:764-780 | the database and the reply are those of `ChangeRentalStatusSpec` |
| RentalViews.CloseRentalSpec | aluguel/views.py:783-816 | success iff a staff POST on an active rental, which is saved with the new status; a rental that is not active gives a warning and no change |
| RentalViews.FinalizeRental | aluguel/views.py:783-798 | `aluguel_finalizar` is `CloseRentalSpec` to finished |
| RentalViews.CancelRental | aluguel/views.py:801-816 | `aluguel_cancelar` is `CloseRentalSpec` to cancelled |
| RentalViews.CloseRental | aluguel/views.py:783-816 | the database and the reply are those of `CloseRentalSpec` |
| RentalViews.ClosingFreesCarUnlessShared | LouerCar/aluguel/models.py:303-311 | closing frees the car iff no other active rental uses it, and leaves the cars alone otherwise |
| RentalViews.SaveWithStatusKeepsValid | aluguel/views.py:770-774 | saving with a new status keeps the database valid |
| RentalViews.ChangeRentalStatusKeepsValid | aluguel/views.py:764-780 | the free status change keeps the database valid |
| RentalViews.CloseRentalKeepsValid | aluguel/views.py:783-816 | finalising and cancelling keep the database valid |
| RentalViews.RentalDetailSpec | aluguel/views.py:734-761 | the page is shown iff the caller is staff or the rental is of their profile; otherwise an error |
| RentalViews.ClientSeesOnlyOwnRentals | aluguel/views.py:734-761 | a client sees a rental iff its profile belongs to them |
| RentalViews.ConfirmPaymentSpec | aluguel/views.py:934-955 | success iff a staff POST on an existing payment, which becomes paid at `now` whatever its status; otherwise nothing changes |
| RentalViews.ConfirmPayment | aluguel/views.py:934-955 | the database and the reply are those of `ConfirmPaymentSpec` |
| RentalViews.ConfirmPaymentKeepsValid | aluguel/views.py:934-955 | confirming keeps the database valid |
| RentalViews.ConfirmedPaymentNotPending | LouerCar/aluguel/models.py:221-225 | after confirmation `tem_pagamento_pendente` is false for the request |
| UserModels.SetPassword | user/models.py:113-115 | the stored password becomes the hash of the raw value; nothing else changes |
| UserModels.CheckAfterSet | user/models.py:113-119 | `check_password` accepts exactly the value last given to `set_password` |
| UserModels.SetPasswordTwice | user/models.py:113-115 | setting twice leaves only the second password |
| UserModels.VisibleGroups | user/models.py:131-140 | a set of existing groups, empty when the user has no tag |
| UserModels.VisibleGroupsExactly | user/models.py:131-140 | a group is visible iff it has a tag the user holds; an untagged group never is |
| UserModels.VisibleGroupsGrow | user/models.py:137 | more tags never hide a group |
| UserForms.StrongMeans | LouerCar/user/forms.py:42-57 | strong iff at least 8 characters, an A-Z letter, a digit and one of the listed symbols |
| UserForms.CleanPassword | LouerCar/user/forms.py:42-57 | passes iff strong; an error is one of the four rules |
| UserForms.CleanPasswordReportsFirstFailure | LouerCar/user/forms.py:45-55 | the error reported is the first rule that fails |
| UserForms.StrongIsNotBlank | LouerCar/user/forms.py:45-46 | a strong password is not blank |
| UserForms.FirstRuleWins | LouerCar/user/forms.py:45-55 | a short password is reported as short; then a missing capital |
| UserForms.CleanNewPassword | LouerCar/user/forms.py:116-132 | on the update form a blank password skips every rule |
| UserForms.CreatePasswordErrors | LouerCar/user/forms.py:42-67 | no error iff strong and equal to the confirmation; a mismatch only when both are present and differ |
| UserForms.UpdatePasswordErrors | LouerCar/user/forms.py:116-142 | no error iff blank, or strong with the confirmation blank or equal |
| UserForms.BlankConfirmationOnlyHurtsCreation | LouerCar/user/forms.py:134-142 | a blank confirmation passes the update form, but the create form reports it missing |
| UserForms.UpdateAcceptsNoWeakerPassword | LouerCar/user/forms.py:116-132 | what the update form accepts, the create form accepts too |
| UserForms.SaveCreated | LouerCar/user/forms.py:69-74 | `UsuarioForm.save` always sets the password; nothing else changes |
| UserForms.SaveUpdated | LouerCar/user/forms.py:144-151 | `UsuarioUpdateForm.save` sets the password only when one is given |
| UserForms.SaveUpdatedKeepsOrReplaces | LouerCar/user/forms.py:144-151 | a blank password keeps the old one checking; a new one is then the only one that checks |
| UserUtils.CreateDefaultTags | LouerCar/user/utils.py:5-49 | `criar_tags_padrao` does what `SeedTags` specifies for the four templates |
| UserUtils.GetOrCreateTags | LouerCar/user/utils.py:36-49 | the loop does what `SeedTags` specifies, for any templates |
| UserUtils.TagNamedAfterInsert | LouerCar/user/utils.py:38-45 | after an insert a name is found iff it was before or the new tag has it |
| UserUtils.SeedTagsEffect | LouerCar/user/utils.py:36-49 | only tags change; existing tags keep key and contents; every template name is then found; exactly the missing names are reported |
| UserUtils.SeedTagsWhenPresent | LouerCar/user/utils.py:36-49 | with every name present, nothing changes and nothing is reported |
| UserUtils.DefaultTagNamesDistinct | LouerCar/user/utils.py:9-34 | the four default templates have distinct names |
| UserUtils.SeedTagsTwice | LouerCar/user/utils.py:5-49 | a second call creates nothing and reports nothing |
| UserUtils.InsertTagKeepsValid | user/models.py:20 | inserting a tag with a new name keeps the database valid |
| UserUtils.SeedTagsKeepsValid | LouerCar/user/utils.py:36-49 | seeding tags keeps the database valid |
| UserUtils.GroupsNamed | LouerCar/user/utils.py:84-85 | exactly the groups of a name, not unique |
| UserUtils.TemplateGroup | LouerCar/user/utils.py:84-91 | the created group has the template's name, description, link and tag |
| UserUtils.SeedGroupsStopsAtRaise | LouerCar/user/utils.py:80-97 | once a `get_or_create` raises, the later templates are not reached |
| UserUtils.CreateDefaultGroups | LouerCar/user/utils.py:52-97 | `criar_grupos_padrao` does what its specification says: tags seeded, then the groups |
| UserUtils.GetOrCreateGroups | LouerCar/user/utils.py:80-97 | the loop does what `SeedGroups` specifies |
| UserUtils.TagNamedReadsTags | LouerCar/user/utils.py:83 | the tag lookup reads only the tag table |
| UserUtils.GroupsNamedAfterInsert | LouerCar/user/utils.py:84-91 | an insert adds its key to the groups of its own name only |
| UserUtils.GetOrCreateGroupEffect | LouerCar/user/utils.py:82-95 | one pass: no raise, only groups change, and the group is created iff its tag exists and no group has its name |
| UserUtils.SeedGroupsEffect | LouerCar/user/utils.py:80-97 | no raise; only groups change; existing groups are kept; each template name ends with one group when its tag exists; the names created are reported |
| UserUtils.SeedGroupsWhenPresent | LouerCar/user/utils.py:80-97 | when every group is present nothing changes and no name is returned |
| UserUtils.SeedGroupsKeepsTags | LouerCar/user/utils.py:80-97 | the group loop never touches tags, even when it raises |
| UserUtils.DefaultGroupsFacts | LouerCar/user/utils.py:59-78 | the group templates have distinct names, each tagged with a default tag |
| UserUtils.CreateDefaultGroupsSeedsTags | LouerCar/user/utils.py:56-57 | afterwards every default tag exists |
| UserUtils.CreateDefaultGroupsTwice | LouerCar/user/utils.py:52-97 | no raise, and a second call changes nothing and returns no name |
| UserUtils.InsertGroupKeepsValid | LouerCar/user/utils.py:84-91 | inserting a group with an existing tag keeps the database valid |
| UserUtils.SeedGroupsKeepsValid | LouerCar/user/utils.py:80-97 | seeding groups keeps the database valid |
| UserUtils.CreateDefaultGroupsKeepsValid | LouerCar/user/utils.py:52-97 | `criar_grupos_padrao` keeps the database valid |
| UserUtils.RoleTagsFor | LouerCar/user/utils.py:106-131 | superuser gets Administrador, staff gets Funcionário, neither gets Cliente Novo; never Cliente VIP |
| UserUtils.RoleNamesDiffer | LouerCar/user/utils.py:141 | the four role names are distinct |
| UserUtils.AssignAutomaticTags | LouerCar/user/utils.py:100-133 | `atribuir_tags_automaticas` does what `AutoTagsSpec` specifies |
| UserUtils.AutoTagsEffect | LouerCar/user/utils.py:100-133 | only user-tag rows are added, those the rules call for; the names returned are the rule names whose tag exists |
| UserUtils.StaffSuperuserGetsBothRoleTags | LouerCar/user/utils.py:106-122 | a staff superuser gets both role tags and never Cliente Novo |
| UserUtils.AutoTagsTwice | LouerCar/user/utils.py:110-128 | a repeat adds no row and returns the same names |
| UserUtils.AutoTagsKeepsValid | LouerCar/user/utils.py:100-133 | giving automatic tags keeps the database valid |
| UserUtils.RolePairs | LouerCar/user/utils.py:141-145 | exactly the user's rows whose tag has a role name |
| UserUtils.UpdateRoleTags | LouerCar/user/utils.py:136-148 | `atualizar_tags_por_funcao` does what `UpdateRoleTagsSpec` specifies |
| UserUtils.RulePairsAreRoleTags | LouerCar/user/utils.py:106-131 | each row the rules give is the user's and has a role tag |
| UserUtils.UpdateRoleTagsEffect | LouerCar/user/utils.py:136-148 | other tags and other users' rows are kept; a role tag is held afterwards iff the flags call for it |
| UserUtils.UpdateRoleTagsIdempotent | LouerCar/user/utils.py:136-148 | re-syncing twice is re-syncing once |
| UserUtils.UpdateRoleTagsKeepsValid | LouerCar/user/utils.py:136-148 | re-syncing keeps the database valid |
| UserUtils.GroupsTaggedIn | LouerCar/user/utils.py:158-160 | exactly the groups tagged with one of the tags |
| UserUtils.Joins | LouerCar/user/utils.py:164-167 | exactly the membership rows of the user in the groups |
| UserUtils.JoinOneGroup | LouerCar/user/utils.py:164-169 | `get_or_create` of one membership; the name is reported iff the row is new |
| UserUtils.JoinGroups | LouerCar/user/utils.py:162-169 | the inner loop: memberships for every group of the tag, the new ones named |
| UserUtils.JoinTaggedGroups | LouerCar/user/utils.py:156-169 | the outer loop: memberships for every group of every tag of the user |
| UserUtils.AddUserToAutomaticGroups | LouerCar/user/utils.py:151-171 | memberships are added for the user's tagged groups; the names returned are those of the groups newly joined, each once |
| UserUtils.AutoGroupsJoinsVisible | LouerCar/user/utils.py:151-171 | afterwards the user's groups are the old ones plus the visible ones; the new ones are the visible ones not joined before; other users are untouched |
| UserUtils.AutoGroupsTwice | LouerCar/user/utils.py:164-169 | a second call changes nothing and returns no name |
| UserUtils.AutoGroupsKeepsValid | LouerCar/user/utils.py:151-171 | joining keeps the database valid |
| UserViews.EnterGroupSpec | user/views.py:484-509 | success iff the tag allows it and the user is not yet a member, and then one membership row is added; lacking the tag is an error, a repeat a warning |
| UserViews.EnterGroup | user/views.py:484-509 | the database and the reply are those of `EnterGroupSpec` |
| UserViews.EnterGroupTwice | user/views.py:497-499 | a second join answers with a warning and changes nothing |
| UserViews.EnterGroupAndVisibility | user/views.py:492 | a tagged group is joined iff it is visible; an untagged group is open to everyone, though not shown |
| UserViews.EnterGroupKeepsValid | user/views.py:502 | joining keeps the database valid |
| UserViews.MyGroupsSpec | user/views.py:444-482 | the page shows the user's tags, the visible groups of the model method and the groups joined |
| UserViews.ShownGroupsCanBeEntered | user/views.py:484-509 | every shown group not yet joined can be joined |
| UserViews.EditedUser | user/views.py:400-406 | the e-mail or photo posted or the current ones; the password changes only when one is given; nothing else changes |
| UserViews.EditMyProfileSpec | user/views.py:389-437 | a change only by a logged-in POST, which saves the user; the profile changes only for a non-staff user who posted CNH, phone and address; success iff the new e-mail is free and, for that profile write, the CNH is free, otherwise a server error |
| UserViews.EditMyProfile | user/views.py:389-437 | the database and the reply are those of `EditMyProfileSpec` |
| UserViews.EditMyProfileFillsProfile | user/views.py:410-427 | a client who posted the three fields ends with exactly one profile holding them |
| UserViews.EditMyProfilePassword | user/views.py:404-406 | the password changes only when one is posted, and then only it checks |
| UserViews.EditMyProfileKeepsValid | user/views.py:389-437 | editing keeps the database valid |
| UserViews.SaveUserKeepsValid | user/models.py:82-84 | saving a user with a free username and e-mail keeps the database valid |
| UserViews.InsertUserKeepsValid | user/models.py:82-84 | inserting such a user keeps the database valid |
| UserViews.UpdateProfileKeepsValid | user/models.py:186-191 | updating a profile with a free CNH keeps the database valid |
| UserViews.InsertProfileKeepsValid | user/models.py:186-191 | inserting a user's first profile with a free CNH keeps the database valid |
| UserViews.FormUser | LouerCar/user/forms.py:5-41 | the user holds the form's fields |
| UserViews.NewUser | LouerCar/user/forms.py:69-74 | the form's user, whose password checks against the posted one |
| UserViews.CreateUserSpec | user/views.py:134-150 | success iff an administrator's POST passes the form; otherwise nothing changes |
| UserViews.CreateUser | user/views.py:134-150 | the database and the reply are those of `CreateUserSpec` |
| UserViews.CreateUserEffect | user/views.py:134-150 | a new row with the form's fields and a strong password, which alone checks, holding exactly its role tags |
| UserViews.CreateUserKeepsValid | user/views.py:134-150 | creating a user keeps the database valid |
| UserViews.UpdatedUser | LouerCar/user/forms.py:144-151 | the form's fields; the old password unless a new one is given |
| UserViews.UpdateUserSpec | user/views.py:153-170 | success iff an administrator's POST on an existing user passes the form; otherwise nothing changes |
| UserViews.UpdateUser | user/views.py:153-170 | the database and the reply are those of `UpdateUserSpec` |
| UserViews.UpdateUserEffect | user/views.py:153-170 | the user is rewritten; manual tags are kept; a role tag is held iff the new flags call for it |
| UserViews.UpdateUserKeepsValid | user/views.py:153-170 | updating a user keeps the database valid |
| UserViews.AssignTagSpec | user/views.py:84-105 | success iff an administrator posts an existing user and tag not yet paired, and then one row is added; a pair already held is a form error with no change |
| UserViews.AssignTag | user/views.py:84-105 | the database and the reply are those of `AssignTagSpec` |
| UserViews.AssignTagTwice | user/views.py:88-98 | assigning the same tag again is a form error and adds nothing |
| UserViews.AssignTagKeepsValid | user/views.py:84-105 | assigning keeps the database valid |
| AuthViews.RegisteredUser | LouerCar/user/auth_views.py:15-19 | the registered user is an active client, not staff and not superuser, whatever was posted |
| AuthViews.RegisterSpec | LouerCar/user/auth_views.py:8-36 | success iff a POST passes the form; otherwise nothing changes |
| AuthViews.Register | LouerCar/user/auth_views.py:8-36 | the database and the reply are those of `RegisterSpec`, tags before groups |
| AuthViews.RegisterJoinsNewClientGroups | LouerCar/user/auth_views.py:15-25 | the new user holds only Cliente Novo, if it exists, and is a member of exactly that tag's groups |
| AuthViews.RegisteredTags | LouerCar/user/auth_views.py:22 | after the tags and before the groups, the new user holds Cliente Novo alone and belongs to no group |
| AuthViews.RegisterKeepsValid | LouerCar/user/auth_views.py:8-36 | registering keeps the database valid |
| AuthViews.DashboardFor | LouerCar/user/auth_views.py:42-46 | staff go to the staff dashboard, everyone else to the client one |
| AuthViews.SessionOf | LouerCar/user/auth_views.py:56-59 | the session holds the user's key, username and role flags |
| AuthViews.LoginSpec | LouerCar/user/auth_views.py:39-73 | a logged-in session goes to its dashboard; a GET shows the page; a missing or unknown username is an error with the session unchanged; the session changes only to that of the user the POST names, whose password checks, who is sent to their dashboard |
| AuthViews.Login | LouerCar/user/auth_views.py:39-73 | the session and the reply are those of `LoginSpec` |
| AuthViews.LoginChecksPassword | LouerCar/user/auth_views.py:48-71 | a POST naming a user logs in iff the password checks; a wrong password leaves the session unchanged |
| AuthViews.RegisterThenLogin | LouerCar/user/auth_views.py:39-73 | a user just registered logs in with their password and lands on the client dashboard |
| AuthViews.Logout | LouerCar/user/auth_views.py:76-81 | the session is flushed and the caller redirected home |
| AuthViews.ClientDashboardSpec | LouerCar/user/auth_views.py:84-122 | renders iff a live client session; staff are sent to the staff dashboard; a stale session is flushed |
| AuthViews.StaffDashboardSpec | LouerCar/user/auth_views.py:125-166 | renders iff a live staff session; clients are sent to the client dashboard; a stale session is flushed |
| AuthViews.ClientDashboard | LouerCar/user/auth_views.py:84-122 | the session and the reply are those of `ClientDashboardSpec` |
| AuthViews.StaffDashboard | LouerCar/user/auth_views.py:125-166 | the session and the reply are those of `StaffDashboardSpec` |
| AuthViews.DashboardsSplitSessions | LouerCar/user/auth_views.py:84-132 | no session sees both dashboards; each redirects a live session to the other, which renders |
| AuthViews.LoginLandsOnItsDashboard | LouerCar/user/auth_views.py:64-67 | the dashboard a login redirects to renders for the new session |
| ApiViews.ScopedRentals | LouerCar/api/views.py:35-45 | staff see every rental; a client sees exactly the rentals of their profile; no profile, none |
| ApiViews.ScopedRequests | LouerCar/api/views.py:53-63 | the same scoping for requests |
| ApiViews.ScopedPayments | LouerCar/api/views.py:81-91 | staff see every payment; a client sees exactly the payments whose rental is of their profile; no profile, none |
| ApiViews.ClientSeesOwnRows | LouerCar/api/views.py:35-63 | a client sees a rental or request iff its profile belongs to them |
| ApiViews.PaymentScopedWithItsRental | LouerCar/api/views.py:81-91 | a payment is seen iff its rental is |
| ApiViews.PendingRequests | LouerCar/api/views.py:65-73 | 403 iff not staff; otherwise exactly the pending requests of every client |
| ApiViews.PendingIsScopedPending | LouerCar/api/views.py:53-73 | the pending list is part of what the same staff caller sees |

## Left out

- E-mail: `enviar_email_pagamento_pendente` and `enviar_email_pagamento_aprovado` send mail and swallow failures, so approval leaves them out.
- Rendering: templates, `messages` and the context of each page are left out; a view answers a `Reply` value (page, redirect, success, warning, error, not found, form errors, server error).
- `entrar_grupo` redirects to the WhatsApp link when the group has one: the model answers `Success` either way, since the target of the redirect decides nothing.
- Password hashing: `make_password` and `check_password` are library calls; the model uses an injective stand-in, so two passwords never share a hash.
- Clock: `timezone.now()` and `datetime.now().year` are parameters.
- Money is integer cents: `DecimalField` rounding is not modelled.
- Concurrency: requests are handled one at a time; races between the check of a car's availability and the save are not modelled.
- Text: ASCII only. Unicode case folding and Unicode white space are not modelled, and neither is the stripping Django's `CharField` applies before `clean_*`.
- Field formats: the e-mail and URL validators of the model fields are not modelled. The CharField length limits are not modelled either.
- Order: queryset ordering (`ordering = ['-criado_em']`) is not modelled; listings are sets.
- UserUtils.AddUserToAutomaticGroups: the names come back in an unspecified order, where the source follows its querysets' order.
- Store.State.ProfileOf: like the other lookups, it picks the least matching key. The source raises `MultipleObjectsReturned` when a unique column holds duplicates. The validity invariant rules duplicates out, so the difference only matters on invalid databases.
- UserUtils.SeedGroupsEffect: proved only when no template name is shared by two groups. Otherwise `get_or_create` raises `MultipleObjectsReturned` and the seeding stops; `SeedGroupsStopsAtRaise` states that case.
- UserViews.EditMyProfileSpec: a CNH or e-mail that collides with another row raises `IntegrityError`. The model answers `ServerError` and keeps the writes made before the failing save, as under autocommit.
- Logins and sessions: only the session keys the views read are modelled. Session expiry and cookie handling are not.
- ApiViews.Caller: the caller is taken to be a `Usuario` key. In the configured project it is not: `Usuario` is a plain model, the settings name no `AUTH_USER_MODEL`, and `login_view` writes only its own session keys and never logs in through `django.contrib.auth`. So `request.user` is a `django.contrib.auth` user or an anonymous one: a user logged in through `login_view` gets the 403 of `IsAuthenticated`, and for an authenticated auth user who is not staff `PerfilCliente.objects.get(usuario=user)` raises a `ValueError` the views do not catch. The client branches of `ScopedRentals`, `ScopedRequests` and `ScopedPayments`, and `ClientSeesOwnRows`, describe what the viewsets intend, not what this configuration does.
- REST API: DRF authentication, permission classes other than the `is_staff` test, serializers and the `disponiveis`, `me`, tag and group viewsets are not modelled.
- Views outside the core are not modelled:
  - `aluguel_create`, `aluguel_update`, `minhas_solicitacoes`, `solicitacoes_pendentes`, `meu_pagamento`, `pagamentos_pendentes`;
  - the CRUD views of cars, tags, groups and profiles;
  - `usuario_delete`, `usuario_detail`, `meu_perfil`, `home`.
- Dashboard contents: the dashboards' counts and lists are not modelled, only who is let in.
- Superseded code: the earlier definitions at lines 14-407 of `aluguel/views.py` are replaced by the later ones and are not modelled; lines 817-827 cannot be reached.
- Configuration: settings, URL routing, the admin classes and the `init_system` command are configuration or wrappers that print what the seeding functions return.
