# School timetable app: a Dafny model of its decision logic

This project models the logic of a Remix school-administration app.
Administrators create a weekly timetable. Teachers, students and
administrators are edited through PATCH endpoints. Students enrol in units
and see their own timetable. The model covers these parts:

- `Timetable`: `generateTimetable` on the timetable-creation page. It walks
  the day list and four slots per day with a running index. Cell `index`
  gets `units[index % |units|]` and `teachers[index % |teachers|]`. Its
  hours are `8 + 2 * slot` to two hours later. The loop is an imperative
  method proved equal to the function `RoundRobin`.
- `Grid`: the weekly grid that both timetable pages draw. A cell shows the
  first record held on its day and slot, coloured by slot position, or
  "No class" in gray.
- `PrismaErrors`: `prismaKnownErrorrs`, the map from Prisma error codes
  to a message and an HTTP status.
- `Responses`: the `catch` block the handlers share, which maps an
  exception class to a message and status.
- `UpdateSets`, `PatchTeacher`, `PatchStudent`, `PatchAdmin`: the three
  PATCH handlers. Each one builds its `updatedData` object field by field
  in an imperative method. That method is proved equal to a declarative
  update set (`TeacherUpdate`, `StudentUpdate`, `AdminUpdate`). The
  handler either rejects the request, writes that set, or answers from
  the `catch` block.
- `StudentDashboard`: the student dashboard. It covers the enrolled-unit
  id set, `pureUnits`, the timetable filtered to enrolled units, and the
  grid over it.
- `StudentEnroll`: the enrolment page, including:
  - `handleEnroll`, which toggles a unit id in the chosen list;
  - `handleSubmit`, the chosen units in loader order;
  - the action: its guard clauses, then one `studentUnit` row created per
    submitted unit in a `for` loop, against a class that holds the table.
- `Schemas`: the zod schemas, as validity predicates and as zod-style
  issue lists carrying the source's messages.
- `JsArrays` and `Wrappers`: `Array.prototype.find` and `filter` over
  sequences, subsequence and no-duplicates predicates, and `Option`.

Outside collaborators become parameters:

- The database is a `connected` flag, a `Lookup` result
  (found / missing / threw), and an optional failure of the write.
- `bcrypt.hash` is a function parameter `hash`.
- zod's `.email()` is a predicate parameter `isEmail`.
- The day list, which is imported from a module outside the model, is a
  parameter `days`.

`xs[index % 0]` reads `xs[NaN]`, which is `undefined`, so `RoundRobin` takes
any lists and gives `None` there; the creation page then throws when it
renders such a record (see "## Left out").

## Model

| member | source | states |
|---|---|---|
| JsArrays.Find | app/routes/_dashboard.create/route.tsx:184 | `find` returns None exactly when no element passes; otherwise it returns an element that passes and is preceded by none that pass |
| JsArrays.Filter | app/routes/student.dashboard.tsx:95 | `filter` keeps exactly the elements that pass, each as often as in the input (multiset), as a subsequence of the input |
| JsArrays.FilterAppend | app/routes/student.enroll.tsx:130 | filtering distributes over concatenation |
| JsArrays.FilterKeepsAll | app/routes/student.enroll.tsx:130 | a filter every element passes returns the list unchanged |
| JsArrays.FilterKeepsDistinct | app/routes/student.enroll.tsx:130 | filtering a duplicate-free list gives a duplicate-free list |
| JsArrays.FindAfterFilter | app/routes/student.dashboard.tsx:95 | finding in a filtered list equals finding the first element that passes both tests in the original list |
| PrismaErrors.KnownRequestError | app/lib/errors.ts:4-111 | the status is always one of 400, 404, 409, 500; an unlisted code gives "A known error occurred." with the initial 500 |
| PrismaErrors.ConflictCodeStatus | app/lib/errors.ts:8-11 | P2002 gives the "already exists" message with 409 |
| PrismaErrors.NotFoundCodeStatus | app/lib/errors.ts:16-99 | P2001, P2015, P2021 and P2022 give 404 with their own message |
| PrismaErrors.ServerErrorCodeStatus | app/lib/errors.ts:48-51 | P2010 gives "Raw query failed." with 500 |
| PrismaErrors.BadRequestCodeStatus | app/lib/errors.ts:12-103 | every other listed code (P2000, P2003 to P2009, P2011 to P2014, P2016 to P2020, P2023) gives 400 with its own message, not the generic one |
| PrismaErrors.StatusClasses | app/lib/errors.ts:4-111 | status 409, 404 and 400 each hold exactly for their code group; 500 holds exactly for P2010 or an unlisted code; the generic message is given exactly for unlisted codes |
| Responses.FailureReply | app/routes/api.patch-teacher.ts:71-104 | the catch block always fails with a message; its status is 400 exactly for a validation error or a bad-request known code, it is 500 for the other non-Prisma-known classes, and known errors use the error-code mapping |
| Grid.LessonAt | app/routes/_dashboard.create/route.tsx:184 | the looked-up lesson is None exactly when no record has the day and slot; otherwise it is the first such record |
| Grid.RenderCell | app/routes/_dashboard.create/route.tsx:183-205 | a cell is "No class" exactly when no record matches its day and slot `index + 1`; a filled cell shows the first matching record, as `find` returns it, in `colors[index]`; an empty one is gray |
| Timetable.RoundRobin | app/routes/_dashboard.create/route.tsx:24-54 | there are four records per day; record k has day `days[k / 4]`, slot `k % 4 + 1` in 1..4, start hour 8 + 2(slot-1) in {8,10,12,14} and end two hours later; its unit and teacher are the list element at k modulo the list length, or None exactly when the list is empty |
| Timetable.GenerateTimetable | app/routes/_dashboard.create/route.tsx:29-53 | the nested loops with the running index push exactly the `RoundRobin` records, in day-then-slot order |
| Timetable.EveryUnitScheduled | app/routes/_dashboard.create/route.tsx:30-49 | with at least as many cells as units, unit u is taught in cell u, so every unit is taught |
| Timetable.UnitsBeyondCapacityUnscheduled | app/routes/_dashboard.create/route.tsx:30-49 | with distinct units and fewer cells than units, the units past the last cell are never taught |
| Timetable.CellsAreUnique | app/routes/_dashboard.create/route.tsx:31-43 | with distinct day labels, no two records share a day and slot |
| Timetable.GeneratedGridHasNoGaps | app/routes/_dashboard.create/route.tsx:184-205 | every cell of a listed day holds a generated record, so none is "No class" (with an empty unit or teacher list the render throws instead) |
| Timetable.GeneratedCellShowsItsEntry | app/routes/_dashboard.create/route.tsx:184-188 | with distinct day labels, cell (d, index) shows record `4d + index` in `colors[index]` |
| Schemas.TeacherIssues | app/lib/zod.ts:3-15 | `teacherSchema` reports no issue exactly when name, department, staff_no and unit are non-empty, the email passes, and the password is absent, empty or at least 6 long; issues name only those fields |
| Schemas.StudentIssues | app/lib/zod.ts:16-26 | `studentSchema` reports no issue exactly when name and reg_no are non-empty, the email passes, and the password is absent, empty or at least 6 long |
| Schemas.AdminIssues | app/lib/zod.ts:28-37 | `AdminSchema` reports no issue exactly when the name is non-empty, the email passes, and auth_code is absent, empty or at least 6 long |
| Schemas.StudentLoginIssues | app/lib/zod.ts:40-43 | student login is valid exactly when reg_no has at least 1 character and the password at least 2 |
| Schemas.StaffLoginIssues | app/lib/zod.ts:44-47 | staff login is valid exactly when staff_no has at least 1 character and the password at least 6 |
| Schemas.AdminLoginIssues | app/lib/zod.ts:48-50 | admin login is valid exactly when auth_code has at least 6 characters |
| Schemas.EmptySecretPasses | app/lib/zod.ts:6-11 | an absent or empty password or auth code raises no issue; one of 1 to 5 characters raises exactly one issue on its field with the refine message; one of 6 or more raises none |
| Schemas.StudentLoginAcceptsShortPasswords | app/lib/zod.ts:40-43 | a 2-character password passes student login but fails the student record schema |
| PatchTeacher.TeacherUpdate | app/routes/api.patch-teacher.ts:33-55 | the update set holds only password, unit, staff_no, name and email, never department; a truthy password is always stored hashed; unit is always a connect to `body.unit` |
| PatchTeacher.IsTeacherUpdate | app/routes/api.patch-teacher.ts:33-55 | an update set with those keys and values is the teacher update set |
| PatchTeacher.BuildTeacherUpdate | app/routes/api.patch-teacher.ts:33-55 | the field-by-field construction writes a column exactly when its condition holds, with the value the source assigns |
| PatchTeacher.PatchTeacher | app/routes/api.patch-teacher.ts:11-104 | the handler replies: no database gives the connection error; a lookup that throws gives the catch reply; a missing teacher gives "Teacher missing"; a unit sent to a teacher without a unit gives the unexpected-error reply; an empty update set gives "No data provided" with no write; otherwise exactly the update set is written and the reply reflects the write |
| PatchTeacher.NoDataExactlyWhenNothingChanges | app/routes/api.patch-teacher.ts:35-59 | the set is empty exactly when no password is sent and every other field is falsy or already stored |
| PatchTeacher.DepartmentChangeWritesUnit | app/routes/api.patch-teacher.ts:39-44 | on a teacher whose unit can be read, a changed department writes the unit key as a connect to `body.unit`, and no department key |
| PatchTeacher.ResubmitWritesNothing | app/routes/api.patch-teacher.ts:35-59 | resending a body without password or department change after it was stored writes nothing |
| PatchTeacher.ValidPayloadStoresLongPassword | app/lib/zod.ts:6-11 | a schema-valid body only ever stores a password of at least 6 characters |
| PatchStudent.StudentUpdate | app/routes/api.patch-student.ts:28-41 | the update set holds only password, name, email and reg_no; a truthy password is always stored hashed |
| PatchStudent.IsStudentUpdate | app/routes/api.patch-student.ts:28-41 | an update set with those keys and values is the student update set |
| PatchStudent.BuildStudentUpdate | app/routes/api.patch-student.ts:28-41 | the field-by-field construction writes a column exactly when its condition holds |
| PatchStudent.PatchStudent | app/routes/api.patch-student.ts:10-90 | no database, a lookup that throws, "Student missing", "No data provided" with no write, otherwise exactly the update set is written |
| PatchStudent.NoDataExactlyWhenNothingChanges | app/routes/api.patch-student.ts:30-45 | the set is empty exactly when no password is sent and name, email and reg_no are falsy or already stored |
| PatchStudent.ResubmitWritesNothing | app/routes/api.patch-student.ts:30-45 | resending a body without password after it was stored writes nothing |
| PatchStudent.ValidPayloadStoresLongPassword | app/lib/zod.ts:19-24 | a schema-valid body only ever stores a password of at least 6 characters |
| PatchAdmin.AdminUpdate | app/routes/api.patch-admin.ts:31-42 | the update set holds only auth_code, name and email; a truthy auth_code is always stored hashed |
| PatchAdmin.IsAdminUpdate | app/routes/api.patch-admin.ts:31-42 | an update set with those keys and values is the administrator update set |
| PatchAdmin.BuildAdminUpdate | app/routes/api.patch-admin.ts:31-42 | the field-by-field construction writes a column exactly when its condition holds |
| PatchAdmin.PatchAdmin | app/routes/api.patch-admin.ts:10-91 | no database, a lookup that throws, "Adminiadministrator missing", "No data provided" with no write, otherwise exactly the update set is written |
| PatchAdmin.NoDataExactlyWhenNothingChanges | app/routes/api.patch-admin.ts:33-46 | the set is empty exactly when no auth code is sent and name and email are falsy or already stored |
| PatchAdmin.ResubmitWritesNothing | app/routes/api.patch-admin.ts:33-46 | resending a body without auth code after it was stored writes nothing |
| PatchAdmin.ValidPayloadStoresLongAuthCode | app/lib/zod.ts:31-36 | a schema-valid body only ever stores an auth code of at least 6 characters |
| StudentDashboard.PureUnits | app/routes/student.dashboard.tsx:84-92 | one flat record per enrolment, in order, copying id, name, unit code, department name and enrolment time, with `teacher_name` always undefined; its ids are exactly the enrolled-id set |
| StudentDashboard.EnrolledTimetable | app/routes/student.dashboard.tsx:82-95 | the rendered timetable keeps exactly the loaded rows of enrolled units, each as often as loaded, in loaded order |
| StudentDashboard.CellIsFirstEnrolledLesson | app/routes/student.dashboard.tsx:224-234 | a cell shows the first loaded row that is both of an enrolled unit and held at its day and slot, in `colors[index]`, and "No class" when there is none |
| StudentDashboard.ShownLessonsAreEnrolled | app/routes/student.dashboard.tsx:224-227 | the grid shows only loaded lessons of enrolled units |
| StudentDashboard.EnrolledLessonFillsItsCell | app/routes/student.dashboard.tsx:224-280 | every loaded lesson of an enrolled unit fills the cell of its day and slot |
| StudentDashboard.NoEnrolmentsShowsAlert | app/routes/student.dashboard.tsx:82-108 | with no enrolments the filtered timetable is empty and the page returns the "no units" alert instead of the grid; with enrolments it renders the grid |
| StudentEnroll.Toggle | app/routes/student.enroll.tsx:128-132 | the id is in the result exactly when it was not chosen before, other ids are unaffected; an absent id is appended; a present id has every occurrence removed and the rest keep their order |
| StudentEnroll.ToggleKeepsDistinct | app/routes/student.enroll.tsx:129-131 | toggling keeps the chosen list free of duplicates |
| StudentEnroll.ToggleTwiceRestores | app/routes/student.enroll.tsx:129-131 | choosing and then unchoosing an unchosen id restores the list |
| StudentEnroll.SubmitUnits | app/routes/student.enroll.tsx:134-137 | the submitted units are exactly the loaded units with a chosen id, each as often as loaded, as a subsequence of the loaded list |
| StudentEnroll.SubmitUnitsStep | app/routes/student.enroll.tsx:134-137 | the submission of a list is its head when chosen followed by the submission of its tail |
| StudentEnroll.SubmitUnitIds | app/routes/student.enroll.tsx:134-137 | the ids of the submitted units are the loaded ids filtered by the chosen list |
| StudentEnroll.SubmittedIdsDistinct | app/routes/student.enroll.tsx:134-137 | loaded units with distinct ids give a submission with distinct ids |
| StudentEnroll.EnrollmentsRows | app/routes/student.enroll.tsx:66-82 | the rows created for a unit list belong to the student and connect exactly its unit ids; distinct ids give distinct rows |
| StudentEnroll.EnrollmentTable.Create | app/routes/student.enroll.tsx:67-81 | a create appends exactly one row |
| StudentEnroll.EnrollmentsPrefixStep | app/routes/student.enroll.tsx:66-82 | one more iteration of the loop adds the row for the next unit at the end |
| StudentEnroll.CreateEnrollments | app/routes/student.enroll.tsx:66-82 | the loop creates one row per unit, in order, up to but not including the create that throws, and reports what that create threw; without a database nothing is created and nothing is thrown |
| StudentEnroll.EnrollAction | app/routes/student.enroll.tsx:42-121 | no user redirects to /login and clears the cookie; another role redirects to /unauthorized; a missing submission gives 404 "no data provided"; none of these writes. Otherwise one row per submitted unit is created in order and the reply is 201. A create that throws stops the loop, keeps the rows already created and gives the catch reply. Without a database nothing is created and the reply is still 201 |
| StudentEnroll.SubmissionEnrollsChosenUnits | app/routes/student.enroll.tsx:66-137 | the rows a submission creates belong to the student, and connect a unit id exactly when it is a loaded id that was chosen; with distinct loaded ids no row is created twice |

## Left out

- Dates: `new Date`, `setHours`, ISO strings and local-time rendering are left out. Times are whole hours of the day.
- The loaders, Prisma queries and cookies are left out; their results are parameters. A `findMany` that throws in a loader is not modelled.
- The login action and its cookie serialisation are left out; only its zod schemas are modelled.
- `bcrypt.hash` is an uninterpreted function, so the salt and its randomness are not modelled.
- The email regex inside zod is a predicate parameter, because its definition is not part of this model.
- Schemas: zod measures string length in UTF-16 code units; the model counts characters of `seq<char>`.
- React rendering, PDF export (`html2canvas`/`jsPDF`) and toasts are presentation and are left out. Of the dashboard's alerts only the choice between the "no units" alert and the grid is modelled, not their markup.
- The dashboard renders `item.classroom` while the loader selects `classRoom`. Classrooms are not modelled, so neither is this mismatch.
- The dashboard loader selects a unit's `Teacher`, which is a list, so `u.unit.Teacher.name` and hence every `teacher_name` of `pureUnits` is `undefined`; `StudentDashboard.PureUnits` states this (`None`).
- The four actions call `await request.json()` before their `try`, so a body that is not JSON throws past the catch blocks (and, in the enrolment action, before the user check). The model starts from the parsed body; this path is not modelled.
- The creation page with an empty `units` or `teachers` list: `RoundRobin` gives `None` records there, and rendering a cell then reads `item.unit.unit_code` or `item.teacher.id` of `undefined` and throws. The model stops at the timetable; the crashing render is not modelled, and `Timetable.GeneratedGridHasNoGaps` speaks of the cells' contents, not of a page that renders.
- The dashboard renders `studentUnits.map` before it checks `!studentUnits`, so a failed loader crashes the page. This is not modelled; the model takes the loaded lists as given.
- The initial message "failed to perform operation" of `prismaKnownErrorrs` is overwritten on every path, so it never appears and is not modelled.
- The catch blocks' `console.error` logging is left out.
- Concurrency between requests and the order of asynchronous database calls are left out.
