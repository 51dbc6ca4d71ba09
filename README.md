# GITS HIGH school dashboard — a Dafny model

This project models the logic of a role-based school dashboard. The dashboard has four portals: Admin, Dean, Teacher and Accountant. The model covers:

- the records the pages work on (users, students, teachers, classes, subjects, exams, marks, fee invoices, attendance, payments) and the shipped fixture data;
- the report generator: the student marksheet, the ranked class performance table, and the download file name;
- the dean's subject-average chart and the exams-and-marks table;
- the two teacher mark forms: the bulk editor of existing marks and the row-by-row entry form, with its save loop;
- the accountant's fee-balance, invoice and payment tables, and the payment and invoice forms;
- the student, teacher and class forms: schemas, defaults, subject checkboxes, payloads and navigation;
- the class list printout and the grouped student roster;
- the attendance register;
- the sign-in page and the sidebar's portal and active-link rules.

Pure computations (filters, maps, folds, sorts, lookups) are Dafny functions whose contracts state what they compute. Components whose state the code updates step by step are classes with `modifies` clauses: the login page, the attendance register and the report generator. The two loops of the code, the mark-entry save loop and the roster grouping `reduce`, are methods with invariants, proved against specification functions.

Server actions (`onSaveMark`, `onUpdateMarks`, `onLogPayment`, `onSaveAttendance` and the update and add callbacks) are function parameters standing for the server's answer. The same goes for the clock, the time-zone offset, the `new Date(...).getTime()` of a payment date and zod's e-mail check.

The modules follow the source files:

| module | file(s) of the model | models |
|---|---|---|
| Types, Lookup | types.dfy | `src/lib/types.ts`, and the `find`-by-id lookups and `?.name \|\| 'N/A'` fallbacks used throughout |
| Fixtures | data.dfy | `src/lib/data.ts` |
| ReportGenerator, Scores | report_generator.dfy, scores.dfy | `report-generator.tsx` |
| AcademicAnalysis | academic_analysis.dfy | `academic-analysis-client.tsx` |
| ExamsAndMarks | exams_and_marks.dfy | `exams-and-marks.tsx` |
| ManageMarks | manage_marks.dfy | `manage-marks.tsx` |
| MarkEntry | mark_entry.dfy | `mark-entry-form.tsx` |
| FeeBalances | fee_balances.dfy | `fee-balances-table.tsx` |
| FeeInvoices | fee_invoices.dfy | `fee-invoices-table.tsx` |
| PaymentsTable | payments_table.dfy | `payments-table.tsx` |
| LogPayment, EditInvoice | log_payment.dfy, edit_invoice.dfy | `log-payment-form.tsx`, `edit-invoice-form.tsx` |
| AddStudent, EditStudent, StudentDetails | add_student.dfy, edit_student.dfy, student_details.dfy | the three student forms |
| AddTeacher, EditTeacher, AddClass | add_teacher.dfy, edit_teacher.dfy, add_class.dfy | the teacher and class forms |
| ClassList | class_list.dfy | `class-list-generator.tsx` |
| StudentList | student_list.dfy | `student-list-client.tsx` |
| AttendanceRegister | attendance.dfy | `attendance-manager.tsx` |
| Login | login.dfy | `src/app/page.tsx` |
| Sidebar | sidebar.dfy | `dashboard-sidebar.tsx` |
| Forms | forms.dfy | the submit pattern, `basePath` rule and subject checkbox shared by the forms |
| Wrappers, Strings, Numbers, Dates, Seqs, Sorting | the remaining files | JavaScript built-ins: truthiness, `toLowerCase`, `includes`, `trim`, `split`/`join`, `replace`, `localeCompare`, stable `sort`, `filter`, `reduce`, and date-fns `format(d, 'yyyy-MM-dd')` |

Facts about the code that a reader might not expect:

- Class performance is ranked by the printed two-decimal average, highest first. Ties keep roster order, because the sort is stable. Totals and admission numbers take no part in the order.
- The grade scale is the four-band A/B/C/D of `report-generator.tsx:90`.
- The fee-balance list keeps student order.
- A subject's chart average takes every exam's marks; there is no exam filter.
- The "subject analysis" report type only shows a "not yet implemented" notice; no grade-distribution report is computed.

## Model

| member | source | states |
|---|---|---|
| Types.RoleNamesExact | src/lib/types.ts:1 | a role string is one of exactly the four role spellings, each read back as its own role |
| Types.StatusNamesExact | src/lib/types.ts:66 | an invoice status string is exactly Paid, Partial or Unpaid, each read back as itself |
| Types.AttendanceNamesExact | src/lib/types.ts:69-73 | an attendance status string is exactly Present, Absent or Late |
| Types.StatusDeterminedByAmounts | src/lib/types.ts:59-67 | on an invoice whose balance is amount − paid with 0 ≤ paid ≤ amount, exactly one status agrees with the amounts |
| Lookup.Find | src/components/dashboard/report-generator.tsx:80-81 | `find` returns the first element that satisfies the test, and nothing exactly when no element does |
| Lookup.StudentById | src/components/dashboard/report-generator.tsx:80 | the found student is in the list with that id; none is found exactly when no student has the id |
| Lookup.ClassById | src/components/dashboard/report-generator.tsx:117 | the found class is in the list with that id; none is found exactly when no class has the id |
| Lookup.ExamById | src/components/dashboard/report-generator.tsx:81 | the found exam is in the list with that id; none is found exactly when no exam has the id |
| Lookup.SubjectById | src/components/dashboard/report-generator.tsx:71 | the found subject is in the list with that id; none is found exactly when no subject has the id |
| Lookup.UserByRole | src/app/page.tsx:43 | the found user has the role; none is found exactly when no user has it |
| Lookup.StudentByUniqueId | src/components/dashboard/report-generator.tsx:80 | when the id is unique, the lookup returns that very student |
| Lookup.SubjectName | src/components/dashboard/report-generator.tsx:71 | an unknown subject id or a found subject with an empty name gives 'N/A'; a found subject with a name gives that name |
| Lookup.ClassName | src/components/dashboard/report-generator.tsx:72 | an unknown class id or a found class with an empty name gives 'N/A'; a found class with a name gives that name |
| Lookup.StudentName | src/components/dashboard/exams-and-marks.tsx:38 | an unknown student id or a found student with an empty name gives 'N/A'; a found student with a name gives that name |
| Lookup.OrElse | src/components/dashboard/exams-and-marks.tsx:38-39 | `s \|\| fallback`: a non-empty string is kept, the empty string is replaced |
| Lookup.ClassLabel | src/components/dashboard/fee-balances-table.tsx:27-31 | the fallback when the class is not found, else "name stream" trimmed |
| Lookup.ClassLabelOfVisible | src/components/dashboard/fee-balances-table.tsx:31 | a class whose name and stream have visible ends is labelled exactly `name stream` |
| Lookup.ClassLabelWithoutStream | src/components/dashboard/fee-balances-table.tsx:31 | a found class without a stream, whose name has visible ends, is labelled by its bare name |
| Fixtures.FeesConsistent | src/lib/data.ts:56-61 | every shipped invoice has balance = amount − paid, 0 ≤ paid ≤ amount and a status matching the amounts |
| Fixtures.MarksWellFormed | src/lib/data.ts:47-54 | every shipped score is in 0..100 and no (student, subject, exam) triple repeats |
| Fixtures.ReferencesResolve | src/lib/data.ts:11-17 | every student's class exists and every invoice's student exists |
| Fixtures.RolesUnique | src/lib/data.ts:4-9 | every role has a user and no two users share a role |
| Fixtures.AdmissionNumbersDistinct | src/lib/data.ts:11-17 | admission numbers are pairwise distinct |
| Scores.StudentMarks | src/components/dashboard/report-generator.tsx:84 | exactly the marks of that student in that exam, each as often as in the input, in marks order |
| Scores.ScoresBounded | src/components/dashboard/report-generator.tsx:93-94 | scores in 0..100 give a total in 0..100·n and an average in 0..100 |
| Scores.AverageOfNone | src/components/dashboard/report-generator.tsx:94 | with no marks the average is 0 |
| Scores.Round2 | src/components/dashboard/report-generator.tsx:131-133 | `parseFloat(x.toFixed(2))` lies within 0.005 of x (its exact rounding is Scores.Round2Exact) |
| Scores.Round2Exact | src/components/dashboard/report-generator.tsx:133 | the rounded value is a whole number of hundredths, the one nearest x, with halves going away from zero |
| Scores.Round2Monotone | src/components/dashboard/report-generator.tsx:133 | rounding to two decimals never reverses the order of two values |
| Scores.Round2Bounded | src/components/dashboard/academic-analysis-client.tsx:19 | a value in 0..100 stays in 0..100 after rounding |
| ReportGenerator.DefaultValues | src/components/dashboard/report-generator.tsx:61-64 | the form opens on the marksheet with no exam, which the schema rejects |
| ReportGenerator.GradeOf | src/components/dashboard/report-generator.tsx:90 | A iff score ≥ 80, B iff 60 ≤ score < 80, C iff 40 ≤ score < 60, D iff score < 40 |
| ReportGenerator.GradeMonotone | src/components/dashboard/report-generator.tsx:90 | a higher score never gets a worse grade |
| ReportGenerator.PreviewMarksheet | src/components/dashboard/report-generator.tsx:75-110 | an error without a student; nothing for an unknown student or exam; otherwise one row per matching mark in marks order, then 'Total Marks' and 'Average Score' rows, so the row count is the mark count + 2 |
| ReportGenerator.RowOf | src/components/dashboard/report-generator.tsx:124-126 | a student's line carries the total and the zero-safe average of that student's marks in the exam |
| ReportGenerator.ClassStudents | src/components/dashboard/report-generator.tsx:121 | exactly the students of the class, each as often as in the roster, in roster order |
| ReportGenerator.Unranked | src/components/dashboard/report-generator.tsx:123-132 | one line per class student, in roster order |
| ReportGenerator.Ranked | src/components/dashboard/report-generator.tsx:121-133 | a permutation of the class lines, ordered non-increasing by the rounded average; equal rounded averages stay in roster order; no later line's exact average exceeds an earlier one's by more than 0.01 |
| ReportGenerator.ClassStudentRanked | src/components/dashboard/report-generator.tsx:121-133 | every class student's line is in the ranked table |
| ReportGenerator.RankedRowOfClassStudent | src/components/dashboard/report-generator.tsx:121-133 | every ranked line belongs to a student of the class |
| ReportGenerator.PreviewClassPerformance | src/components/dashboard/report-generator.tsx:112-145 | an error without a class; nothing when the class or exam is unknown; otherwise a report with the four column headers, the class and exam meta lines and one row per class student |
| ReportGenerator.ClassPerformanceRows | src/components/dashboard/report-generator.tsx:127-138 | row i of the report is the i-th ranked line rendered |
| ReportGenerator.FileName | src/components/dashboard/report-generator.tsx:192-200 | every download name ends in `.pdf`; when no named branch applies it is the dashed title plus `.pdf` |
| ReportGenerator.MarksheetFileName | src/components/dashboard/report-generator.tsx:196-197 | a shown marksheet downloads as `Marksheet-<admission number>-<exam name>.pdf` |
| ReportGenerator.ClassPerformanceFileName | src/components/dashboard/report-generator.tsx:198-199 | a shown class report downloads as `ClassPerformance-<class name>-<exam name>.pdf` |
| ReportGenerator.FallbackFileName | src/components/dashboard/report-generator.tsx:195 | when neither the marksheet nor the class branch applies, the name is the title with each white-space character replaced by '-', plus `.pdf`: four characters longer, with no white space |
| ReportGenerator.Generator.constructor | src/components/dashboard/report-generator.tsx:55-56 | not loading; no preview; the state is valid |
| ReportGenerator.Generator.OnSubmit | src/components/dashboard/report-generator.tsx:151-171 | the old preview is cleared, the chosen report computed and kept when one was produced, and loading ends; a kept preview is the shown report of its own form values |
| ReportGenerator.Generator.OnReportTypeChange | src/components/dashboard/report-generator.tsx:207-209 | changing the report type discards the preview and keeps the state valid |
| ReportGenerator.Generator.DownloadName | src/components/dashboard/report-generator.tsx:173-174 | nothing exactly when there is no preview; a kept marksheet downloads as `Marksheet-<admission number>-<exam name>.pdf`, a kept class report as `ClassPerformance-<class name>-<exam name>.pdf` |
| AcademicAnalysis.SubjectMarks | src/components/dashboard/academic-analysis-client.tsx:14 | exactly the marks of the subject across all exams, each as often as in the marks, in marks order |
| AcademicAnalysis.SubjectAverages | src/components/dashboard/academic-analysis-client.tsx:13-21 | one entry per subject, in subject order, named after it, carrying its rounded average |
| AcademicAnalysis.AveragesBounded | src/components/dashboard/academic-analysis-client.tsx:15-19 | scores in 0..100 give every subject average in 0..100 |
| AcademicAnalysis.UnmarkedSubjectAverage | src/components/dashboard/academic-analysis-client.tsx:16 | a subject without marks averages 0 |
| AcademicAnalysis.AllExamsCount | src/components/dashboard/academic-analysis-client.tsx:14 | a mark of any exam joins the subject's marks, so there is no exam filter |
| ExamsAndMarks.InitialExam | src/components/dashboard/exams-and-marks.tsx:32 | the first exam's id, or none for an empty exam list |
| ExamsAndMarks.FilteredMarks | src/components/dashboard/exams-and-marks.tsx:34-36 | nothing without a selection, else exactly the marks of that exam, each as often as in the input, in order |
| ExamsAndMarks.Rows | src/components/dashboard/exams-and-marks.tsx:38-39 | one row per shown mark, with the student and subject names or 'N/A' |
| ExamsAndMarks.InitialSelectionShowsFirstExam | src/components/dashboard/exams-and-marks.tsx:32-35 | on opening, the marks of the first exam are shown |
| ExamsAndMarks.UnmarkedExamIsEmpty | src/components/dashboard/exams-and-marks.tsx:35 | an exam without marks shows an empty table |
| ManageMarks.RelevantMarks | src/components/dashboard/manage-marks.tsx:69-71 | exactly the marks of the chosen exam and subject, each as often as in the input, in order |
| ManageMarks.FirstMark | src/components/dashboard/manage-marks.tsx:79 | the first relevant mark of the student, found iff the student has one |
| ManageMarks.MarkedStudents | src/components/dashboard/manage-marks.tsx:73-77 | exactly the students with a relevant mark, each as often as in the roster, in student order |
| ManageMarks.FormRows | src/components/dashboard/manage-marks.tsx:78-86 | one row per marked student, carrying that student's first relevant mark id and score |
| ManageMarks.RowsCarryTheirMarks | src/components/dashboard/manage-marks.tsx:79-85 | every row's mark id and score come from a relevant mark of the row's student |
| ManageMarks.OwnerOf | src/components/dashboard/manage-marks.tsx:97 | the student whose id is on the first mark carrying the id (the first such student); nothing exactly when no mark carries the id or no student has that mark's student id |
| ManageMarks.StudentData | src/components/dashboard/manage-marks.tsx:95-104 | one shown row per form row; 'Unknown' / 'N/A' when the mark's student is not found |
| ManageMarks.OwnerOfMark | src/components/dashboard/manage-marks.tsx:97 | with unique ids, a mark leads back to its own student |
| ManageMarks.ShownRowsNameTheirStudents | src/components/dashboard/manage-marks.tsx:73-101 | each shown row names the student it was built for |
| ManageMarks.Updates | src/components/dashboard/manage-marks.tsx:116 | one update per row with that row's mark id and score |
| ManageMarks.Submit | src/components/dashboard/manage-marks.tsx:18-116 | rejected by the schema unless exam and subject are chosen and every score is in 0..100; refused with zero rows; otherwise the server is called with the updates |
| ManageMarks.MarksForm.constructor | src/components/dashboard/manage-marks.tsx:51-55 | opens with no exam, no subject and no rows |
| ManageMarks.MarksForm.Refresh | src/components/dashboard/manage-marks.tsx:66-93 | with both chosen the rows are rebuilt from the marks; otherwise they are emptied |
| ManageMarks.MarksForm.SetExam | src/components/dashboard/manage-marks.tsx:63 | choosing an exam keeps the subject and the form's invariant |
| ManageMarks.MarksForm.SetSubject | src/components/dashboard/manage-marks.tsx:64 | choosing a subject keeps the exam and the form's invariant |
| ManageMarks.MarksForm.EditScore | src/components/dashboard/manage-marks.tsx:20 | editing a score changes that row's score only |
| ManageMarks.FreshSelectionRefusedIffUnmarked | src/components/dashboard/manage-marks.tsx:73-114 | saving a fresh selection is refused exactly when no student has a mark for it |
| MarkEntry.DefaultValues | src/components/dashboard/mark-entry-form.tsx:56-60 | one blank row and nothing chosen, which the schema rejects |
| MarkEntry.PayloadOf | src/components/dashboard/mark-entry-form.tsx:74-79 | a save carries the form's exam and subject with the row's student and score |
| MarkEntry.Payloads | src/components/dashboard/mark-entry-form.tsx:72-79 | one save record per row, in row order |
| MarkEntry.SaveMarks | src/components/dashboard/mark-entry-form.tsx:70-89 | saves exactly the rows with a student, in row order, whatever earlier saves returned; `allSuccess` holds iff every save succeeded |
| MarkEntry.ValidFormSavesEveryRow | src/components/dashboard/mark-entry-form.tsx:28-73 | on a form the schema accepts, every row is saved |
| MarkEntry.BlankRowSkipped | src/components/dashboard/mark-entry-form.tsx:73 | a row without a student adds no save |
| MarkEntry.MarkEntryForm.constructor | src/components/dashboard/mark-entry-form.tsx:56-60 | the form opens on the default values |
| MarkEntry.MarkEntryForm.Append | src/components/dashboard/mark-entry-form.tsx:63 | adding a row appends one blank row |
| MarkEntry.MarkEntryForm.Remove | src/components/dashboard/mark-entry-form.tsx:63 | removing row i drops that row only |
| MarkEntry.MarkEntryForm.SetEntry | src/components/dashboard/mark-entry-form.tsx:33-37 | editing row i replaces that row only |
| MarkEntry.MarkEntryForm.OnSubmit | src/components/dashboard/mark-entry-form.tsx:68-104 | an invalid form is rejected unchanged; otherwise the named rows are saved, and only when all succeed is the form reset to the same exam and subject with one blank row |
| FeeBalances.StudentFees | src/components/dashboard/fee-balances-table.tsx:23 | exactly the invoices of the student, each as often as in the invoices, in order |
| FeeBalances.AllBalances | src/components/dashboard/fee-balances-table.tsx:22-32 | one entry per student, in student order |
| FeeBalances.StudentBalances | src/components/dashboard/fee-balances-table.tsx:21-34 | exactly the entries with a positive balance, each as often as among all balances, in student order |
| FeeBalances.ListedIffOwing | src/components/dashboard/fee-balances-table.tsx:33 | a student is listed iff billed minus paid is positive |
| FeeBalances.NoFeesNotListed | src/components/dashboard/fee-balances-table.tsx:23-33 | a student with no invoices has balance 0 and is not listed |
| FeeBalances.InvoicesAddUp | src/components/dashboard/fee-balances-table.tsx:24-26 | another invoice of the student adds its amount − paid to the balance |
| FeeBalances.OtherInvoiceIgnored | src/components/dashboard/fee-balances-table.tsx:23 | another student's invoice leaves the balance unchanged |
| FeeBalances.BalanceMatchesLedger | src/components/dashboard/fee-balances-table.tsx:24-26 | on consistent invoices the computed balance is the sum of the recorded balances and is non-negative |
| FeeBalances.FilteredBalances | src/components/dashboard/fee-balances-table.tsx:36-44 | the whole list for an empty term, else exactly the entries whose name or admission number contains the term ignoring case, each as often as in the input; a subsequence either way |
| FeeBalances.SearchByAdmissionNumber | src/components/dashboard/fee-balances-table.tsx:42 | searching a listed student's admission number keeps that student |
| FeeInvoices.VariantOf | src/components/dashboard/fee-invoices-table.tsx:22-33 | default iff Paid, secondary iff Partial, destructive iff Unpaid |
| FeeInvoices.OutlineIffUnknownStatus | src/components/dashboard/fee-invoices-table.tsx:30-31 | outline exactly for a status that is none of the three |
| FeeInvoices.TypedStatusVariants | src/components/dashboard/fee-invoices-table.tsx:22-33 | the three typed statuses never fall to outline |
| FeeInvoices.InvoiceStudentName | src/components/dashboard/fee-invoices-table.tsx:18-20 | 'Unknown Student' for an unknown student or a found student with an empty name, else the student's name |
| FeeInvoices.RowOf | src/components/dashboard/fee-invoices-table.tsx:50-60 | the whole row: the invoice id, the student's name or 'Unknown Student', amount, paid, balance, due date and status copied from the invoice; the balance is highlighted iff it is positive; the badge follows the status |
| FeeInvoices.Rows | src/components/dashboard/fee-invoices-table.tsx:49 | one row per invoice, in input order |
| FeeInvoices.HighlightedIffNotPaid | src/components/dashboard/fee-invoices-table.tsx:55-60 | on a consistent invoice the balance is highlighted iff the badge is not the Paid one |
| PaymentsTable.RowOf | src/components/dashboard/payments-table.tsx:21-27 | the payment with its student's name and admission number, or 'Unknown Student' / 'N/A' |
| PaymentsTable.Joined | src/components/dashboard/payments-table.tsx:21 | one row per payment, in input order |
| PaymentsTable.Newest | src/components/dashboard/payments-table.tsx:20-29 | a permutation of the joined rows, latest timestamp first; rows with equal timestamps keep input order |
| PaymentsTable.Filtered | src/components/dashboard/payments-table.tsx:31-40 | every row for an empty term, else exactly the rows whose student name, admission number or payment id contains the term ignoring case, each as often as in the input; a subsequence either way |
| PaymentsTable.EveryPaymentListed | src/components/dashboard/payments-table.tsx:21-28 | every payment's row appears in the sorted list, exactly as often as among the joined rows |
| PaymentsTable.SearchByPaymentId | src/components/dashboard/payments-table.tsx:38 | searching a payment's own id keeps its row |
| PaymentsTable.OrphanPaymentRow | src/components/dashboard/payments-table.tsx:25-26 | a payment of an unknown student shows 'Unknown Student' and 'N/A' |
| Forms.Send | src/components/dashboard/log-payment-form.tsx:53-71 | a submission is rejected iff the schema fails; otherwise the server is called with the payload, and only success has the success effect |
| Forms.BasePath | src/components/dashboard/add-student-form.tsx:64 | '/admin' iff the path contains '/admin/', else '/dean' |
| Forms.AdminPagesStayInAdmin | src/components/dashboard/edit-student-form.tsx:54 | a page below '/admin/' returns to the admin portal |
| Forms.ToggleSubject | src/components/dashboard/edit-student-form.tsx:155-163 | checking appends the id; unchecking removes every occurrence and keeps the other ids in order and count |
| Forms.ToggleShows | src/components/dashboard/add-teacher-form.tsx:163-173 | after a toggle the box shows checked iff it was checked |
| Forms.ToggleRoundTrip | src/components/dashboard/edit-teacher-form.tsx:166-175 | checking then unchecking an absent subject restores the list |
| Forms.UncheckKeepsOthers | src/components/dashboard/student-details-modal.tsx:259-267 | unchecking keeps every other subject |
| LogPayment.DefaultValues | src/components/dashboard/log-payment-form.tsx:47-50 | the defaults are student '' and amount 0, which fail the schema |
| LogPayment.Submit | src/components/dashboard/log-payment-form.tsx:27-69 | rejected iff the student is empty or the amount is below 1; the payload is the values; the form resets iff the server succeeds |
| LogPayment.DefaultsRejected | src/components/dashboard/log-payment-form.tsx:47-50 | submitting the defaults is rejected |
| LogPayment.LogPaymentForm.constructor | src/components/dashboard/log-payment-form.tsx:47-50 | the form opens on the defaults |
| LogPayment.LogPaymentForm.SetValues | src/components/dashboard/log-payment-form.tsx:45-51 | typing sets the values |
| LogPayment.LogPaymentForm.OnSubmit | src/components/dashboard/log-payment-form.tsx:53-71 | on success the values return to the defaults; otherwise they stay |
| EditInvoice.DefaultValues | src/components/dashboard/edit-invoice-form.tsx:46-50 | amount, paid amount and due date are copied from the invoice |
| EditInvoice.Submit | src/components/dashboard/edit-invoice-form.tsx:25-70 | rejected iff an amount is negative or the date is missing; the payload is the values; success goes to /accountant/invoices |
| EditInvoice.OverpaymentAccepted | src/components/dashboard/edit-invoice-form.tsx:25-29 | a paid amount above the amount is accepted: there is no cross-field rule |
| EditInvoice.ConsistentInvoiceDefaultsValid | src/components/dashboard/edit-invoice-form.tsx:46-50 | a consistent invoice with a well-formed due date opens on valid values carrying that date |
| AddStudent.DefaultValues | src/components/dashboard/add-student-form.tsx:69-75 | the empty defaults fail the schema |
| AddStudent.PayloadOf | src/components/dashboard/add-student-form.tsx:81-84 | the form's fields, with the date of birth sent as `format(d, 'yyyy-MM-dd')` |
| AddStudent.Submit | src/components/dashboard/add-student-form.tsx:33-101 | rejected iff the name is shorter than 2, the admission number or class is empty, or the date is missing; success navigates to basePath + '/students' |
| AddStudent.PayloadDateRoundTrip | src/components/dashboard/add-student-form.tsx:83 | the payload's date string reads back as the picked date |
| EditStudent.DefaultValues | src/components/dashboard/edit-student-form.tsx:59-63 | name and class from the student, subjects from the enrolment list |
| EditStudent.Toggle | src/components/dashboard/edit-student-form.tsx:155-163 | a checkbox changes the subject list only |
| EditStudent.Submit | src/components/dashboard/edit-student-form.tsx:31-75 | rejected iff the name is shorter than 2, the class is empty or no subject is picked; success navigates to basePath + '/students' |
| EditStudent.DefaultsValidIff | src/components/dashboard/edit-student-form.tsx:31-63 | the defaults pass iff the student has a 2-character name, a class and at least one subject |
| EditStudent.SubjectRule | src/components/dashboard/edit-student-form.tsx:34-163 | unchecking the only subject makes the form invalid; checking one always leaves a subject |
| StudentDetails.PayloadOf | src/components/dashboard/student-details-modal.tsx:82-85 | the payload keeps the values and renders the date of birth as `yyyy-MM-dd` |
| StudentDetails.Toggle | src/components/dashboard/student-details-modal.tsx:259-267 | a checkbox changes the subject list only |
| StudentDetails.Submit | src/components/dashboard/student-details-modal.tsx:36-100 | rejected iff the schema fails; the modal closes iff the server succeeds |
| StudentDetails.LocalDateOfUtcMidnight | src/components/dashboard/student-details-modal.tsx:74 | UTC midnight of a date is that date east of UTC and the day before west of it |
| StudentDetails.AsWrittenDefaultDate | src/components/dashboard/student-details-modal.tsx:74 | as written: an unparsable stored date gives no date; a stored date opens as itself at or east of UTC and as the previous day west of UTC |
| StudentDetails.AsWrittenShiftsBirthday | src/components/dashboard/student-details-modal.tsx:74-84 | as written, west of UTC the untouched form sends the day before the stored birthday |
| StudentDetails.AsWrittenExample | src/components/dashboard/student-details-modal.tsx:74 | the shipped 2008-05-10 opens as 2008-05-09 at UTC−5 |
| StudentDetails.DefaultValues | src/components/dashboard/student-details-modal.tsx:70-77 | the defaults come from the record and the enrolment list; the stored date is read as a calendar date |
| StudentDetails.DefaultsKeepBirthday | src/components/dashboard/student-details-modal.tsx:70-85 | with the corrected defaults the untouched form sends the stored date of birth back unchanged |
| AddTeacher.DefaultValues | src/components/dashboard/add-teacher-form.tsx:47-53 | no subjects, so the defaults fail whatever counts as an e-mail |
| AddTeacher.Toggle | src/components/dashboard/add-teacher-form.tsx:163-173 | a checkbox changes the subject list only |
| AddTeacher.Submit | src/components/dashboard/add-teacher-form.tsx:24-67 | rejected iff the name is shorter than 2, the staff id is empty, the e-mail fails or no subject is picked; success goes to /admin |
| AddTeacher.OneSubjectSuffices | src/components/dashboard/add-teacher-form.tsx:24-30 | with the other fields valid, checking one subject makes the form valid |
| EditTeacher.DefaultValues | src/components/dashboard/edit-teacher-form.tsx:47-55 | every field is copied from the teacher |
| EditTeacher.Submit | src/components/dashboard/edit-teacher-form.tsx:24-69 | the add-teacher schema; the payload is the values; success goes to /admin |
| EditTeacher.DefaultsValidIff | src/components/dashboard/edit-teacher-form.tsx:24-55 | the defaults pass iff the teacher's own fields meet the schema |
| AddClass.DefaultValues | src/components/dashboard/add-class-form.tsx:49-54 | the empty defaults fail the schema |
| AddClass.Submit | src/components/dashboard/add-class-form.tsx:28-67 | rejected iff the name or the class teacher is empty; the payload is the values; success goes to /admin |
| AddClass.StreamOptional | src/components/dashboard/add-class-form.tsx:30 | the stream plays no part in validity |
| ClassList.InClass | src/components/dashboard/class-list-generator.tsx:30 | exactly the students of the class, each as often as in the roster, in roster order |
| ClassList.Reordered | src/components/dashboard/class-list-generator.tsx:33-40 | a name without a space is returned as it is; otherwise the part after the last space, then ", ", then everything before that space |
| ClassList.Listed | src/components/dashboard/class-list-generator.tsx:29-31 | a permutation of the class's students, ascending by admission number |
| ClassList.NoSpaceUnchanged | src/components/dashboard/class-list-generator.tsx:39 | a name without a space is returned unchanged |
| ClassList.ReorderedRoundTrip | src/components/dashboard/class-list-generator.tsx:35-37 | the reordered name is last + ", " + the rest, and rejoining the rest's parts with the last part gives back the name |
| ClassList.ReorderedSameWords | src/components/dashboard/class-list-generator.tsx:35-37 | the reordered name holds the same multiset of words |
| ClassList.Header | src/components/dashboard/class-list-generator.tsx:60 | the header has 9 columns |
| ClassList.PrintRow | src/components/dashboard/class-list-generator.tsx:61-66 | each row has 9 cells: the number, the admission number, the reordered name, then 6 blanks |
| ClassList.Body | src/components/dashboard/class-list-generator.tsx:61-66 | one row per listed student, numbered 1..n in listed order |
| ClassList.FileName | src/components/dashboard/class-list-generator.tsx:76 | a name without a space gives `ClassList-<name>-<stream>.pdf`; otherwise only the first space of the name is removed and any later one stays; a missing stream leaves it empty |
| ClassList.FileNameDropsFirstSpace | src/components/dashboard/class-list-generator.tsx:76 | only the first space of the name is dropped, so the name is one character shorter |
| ClassList.HandlePrint | src/components/dashboard/class-list-generator.tsx:42-76 | refused without a class; nothing for an unknown class; otherwise a printout titled `Class List: <name> <stream>` with the nine-column header, the listed body and that file name |
| StudentList.WithClass | src/components/dashboard/student-list-client.tsx:75-82 | one entry per student, labelled with the trimmed class label or 'Unassigned' |
| StudentList.Filtered | src/components/dashboard/student-list-client.tsx:84-92 | everything for an empty term, else exactly the name or admission-number matches ignoring case, each as often as in the input; a subsequence |
| StudentList.SortedEntries | src/components/dashboard/student-list-client.tsx:95 | a permutation in ascending admission-number order |
| StudentList.GroupByLabel | src/components/dashboard/student-list-client.tsx:97-104 | a group exists exactly for each label in use, and holds exactly that label's entries in sorted order; every group key is recorded once |
| StudentList.GroupExistsIff | src/components/dashboard/student-list-client.tsx:98-101 | a label has a group iff some entry carries it |
| StudentList.GroupsPartition | src/components/dashboard/student-list-client.tsx:97-104 | each entry is in its own label's group, as often as in the input, and in no other |
| StudentList.GroupsSorted | src/components/dashboard/student-list-client.tsx:95-102 | every group is in ascending admission-number order |
| StudentList.RenderOrder | src/components/dashboard/student-list-client.tsx:137 | the group labels are rendered in ascending order, each once |
| StudentList.RenderOrderShowsEveryGroup | src/components/dashboard/student-list-client.tsx:137 | every group is rendered |
| StudentList.RosterState.constructor | src/components/dashboard/student-list-client.tsx:50-52 | no student being edited, no subjects, modal closed |
| StudentList.RosterState.HandleEdit | src/components/dashboard/student-list-client.tsx:55-62 | the student, the enrolled subjects and an open modal |
| StudentList.RosterState.HandleModalClose | src/components/dashboard/student-list-client.tsx:69-73 | the modal closes and the editing student and subjects are cleared |
| AttendanceRegister.AllPresent | src/components/dashboard/attendance-manager.tsx:50-53 | one 'Present' entry per student, in student order |
| AttendanceRegister.Recorded | src/components/dashboard/attendance-manager.tsx:69 | the first recorded entry of that student on that date, none iff there is no such entry |
| AttendanceRegister.StatusOn | src/components/dashboard/attendance-manager.tsx:69-70 | the recorded status, or 'Present' when none was recorded |
| AttendanceRegister.EntriesOn | src/components/dashboard/attendance-manager.tsx:68-71 | one entry per student, in student order, with that student's status on the date |
| AttendanceRegister.Payload | src/components/dashboard/attendance-manager.tsx:77-81 | the same entries, same count and order, each with the date string attached |
| AttendanceRegister.UnrecordedDayAllPresent | src/components/dashboard/attendance-manager.tsx:68-71 | on a day without records everyone is present |
| AttendanceRegister.OtherDaysIgnored | src/components/dashboard/attendance-manager.tsx:67-69 | a record of a different valid date never affects the day's status |
| AttendanceRegister.AttendanceForm.constructor | src/components/dashboard/attendance-manager.tsx:47-54 | the epoch date and everyone present |
| AttendanceRegister.AttendanceForm.HandleDateChange | src/components/dashboard/attendance-manager.tsx:64-73 | no date changes nothing; a date becomes the form's date, and the entries are reloaded for it |
| AttendanceRegister.AttendanceForm.SetStatus | src/components/dashboard/attendance-manager.tsx:19-27 | picking a status changes that entry only |
| AttendanceRegister.AttendanceForm.Submit | src/components/dashboard/attendance-manager.tsx:75-83 | the server receives the entries with the date string, and the form stays |
| AttendanceRegister.ResaveReproducesRecords | src/components/dashboard/attendance-manager.tsx:68-81 | saving right after picking a date sends each student's recorded entry for that day back as it was |
| Login.AttemptOf | src/app/page.tsx:38-58 | no role: an error; success iff a user has the role and the password is '123456', landing on '/' + the lower-cased role |
| Login.LoginPage.constructor | src/app/page.tsx:22-24 | no role, no password, no error |
| Login.LoginPage.HandleRoleSelect | src/app/page.tsx:28-32 | the role is set, and error and password are cleared |
| Login.LoginPage.SetPassword | src/app/page.tsx:113 | typing sets the password only |
| Login.LoginPage.HandleLogin | src/app/page.tsx:34-59 | no role: the role error and no navigation; success: navigation and no error; otherwise 'Invalid password.'; role and password stay |
| Login.LoginPage.HandleGoBack | src/app/page.tsx:61-65 | role, error and password are cleared |
| Login.ShippedUsersLandOnOwnPortal | src/app/page.tsx:43-50 | with the shipped users every role signs in with exactly '123456' and lands on the path whose sidebar reads back that role |
| Login.WrongPasswordStays | src/app/page.tsx:45-58 | a wrong password never navigates |
| Sidebar.Slug | src/components/dashboard/dashboard-sidebar.tsx:73-89 | each portal's path segment is non-empty and has no '/' |
| Sidebar.SlugIsLowerRoleName | src/app/page.tsx:50 | the portal segment is the role name lower-cased |
| Sidebar.ParseSlugExact | src/components/dashboard/dashboard-sidebar.tsx:73-89 | exactly the four segments name a portal, each its own |
| Sidebar.RoleOf | src/components/dashboard/dashboard-sidebar.tsx:68 | the segment after the first '/', or 'admin' when missing or empty; never empty, never holding '/' |
| Sidebar.RoleOfSegment | src/components/dashboard/dashboard-sidebar.tsx:68 | a path `/s`, with s non-empty and free of '/', reads back the segment s |
| Sidebar.RoleOfSegmentBelow | src/components/dashboard/dashboard-sidebar.tsx:68 | a path `/s/rest` reads back the segment s after the first '/', whatever follows |
| Sidebar.RoleOfPortalPath | src/components/dashboard/dashboard-sidebar.tsx:68 | a portal path, at its root or below it, reads back that portal's segment |
| Sidebar.EmptySegmentIsAdmin | src/components/dashboard/dashboard-sidebar.tsx:68 | an empty path, '/', or an empty first segment all read as 'admin' |
| Sidebar.SelectMenu | src/components/dashboard/dashboard-sidebar.tsx:70-93 | a portal segment picks its own links and title; anything else falls back to the admin portal |
| Sidebar.IsActive | src/components/dashboard/dashboard-sidebar.tsx:111 | the portal's root link is active only on its own path; any other link is active on its path and every path starting with it |
| Sidebar.LinksBelowRoot | src/components/dashboard/dashboard-sidebar.tsx:37-64 | each portal's first link is its root, and every other link lies below it |
| Sidebar.RootLinkExactOnly | src/components/dashboard/dashboard-sidebar.tsx:111 | within a portal, its root link is active iff the path is exactly the root |
| Sidebar.SectionHighlighted | src/components/dashboard/dashboard-sidebar.tsx:111 | on a page at or below a section link, that link is active and the root link is not |
| Dates.FormatYmd | src/components/dashboard/attendance-manager.tsx:67 | the `yyyy-MM-dd` rendering has at least 10 characters |
| Dates.ParseFormat | src/components/dashboard/add-student-form.tsx:83 | every valid date reads back from its rendering |
| Dates.FormatInjective | src/components/dashboard/attendance-manager.tsx:67-69 | two valid dates render alike iff they are equal |
| Dates.FormatLength | src/components/dashboard/student-details-modal.tsx:84 | a date of a four-digit year renders in exactly 10 characters |
| Sorting.Sort | src/components/dashboard/class-list-generator.tsx:31 | `sort` with a comparator: the length, a permutation, ordered by the key, and with equal keys in input order |
| Strings.StrLeTotalOrder | src/components/dashboard/student-list-client.tsx:95 | the comparison used for `localeCompare` is a total order |
| Strings.Lower | src/components/dashboard/fee-balances-table.tsx:41 | `toLowerCase` keeps the length and lower-cases each ASCII letter |
| Strings.ContainsAt | src/components/dashboard/fee-balances-table.tsx:41-42 | `includes` holds iff the term occurs at some position |
| Strings.Trim | src/components/dashboard/fee-balances-table.tsx:31 | `trim` gives the slice of s that leaves only white space before and after it, with no white space at either end |
| Strings.TrimTrailingSpace | src/components/dashboard/fee-balances-table.tsx:31 | a string with visible ends and one space appended trims back to itself |
| Strings.JoinSplit | src/components/dashboard/class-list-generator.tsx:34-37 | joining the parts of a split gives back the string |
| Strings.SplitJoin | src/components/dashboard/class-list-generator.tsx:34-37 | splitting a join of separator-free parts gives back the parts |
| Strings.ReplaceFirst | src/components/dashboard/class-list-generator.tsx:76 | `replace(' ', r)` replaces the first occurrence only |
| Strings.ReplaceWhitespace | src/components/dashboard/report-generator.tsx:195 | `replace(/\s/g, d)` replaces every white-space character and nothing else |
| Seqs.FilterProperties | src/components/dashboard/exams-and-marks.tsx:35 | `filter` keeps exactly the passing elements, as often as they occur, in order |
| Seqs.SumOfAppend | src/components/dashboard/fee-balances-table.tsx:24-25 | the `reduce` sum of a concatenation is the sum of the sums |
| Seqs.MeanBounds | src/components/dashboard/academic-analysis-client.tsx:16 | a total within lo·n..hi·n gives a zero-safe mean within lo..hi |

## Left out

- Calls out of the page are left out: Firestore reads and writes, the server actions, the AI report generator, jsPDF drawing, toasts, `isLoading` spinners, `router.refresh`, and all JSX layout. Each server action is a parameter that returns the server's success flag.
- StudentList.RosterState.HandleEdit: the enrolled subjects come from a document-store query; the model takes them as a parameter and leaves out the failure branch, which only shows a toast.
- Forms and onSubmit handlers: react-hook-form calls `onSubmit` only when the schema accepts the values. The `Submit` functions model this as a `Rejected` outcome; zod's messages are not modelled.
- `z.coerce.number()` is not modelled: numbers are taken as already parsed. JavaScript's `number` is an exact `real`, so floating-point error is not modelled.
- Scores.Round2Exact: the two-decimal rounding is exact rounding of reals, halves away from zero. `toFixed` on binary doubles can differ for values near a half, and that is not modelled.
- ReportGenerator.Round2 is not a separate member: the shared `Scores.Round2` serves the report generator and the chart.
- `toLocaleString` and date-fns `format(d, 'PPP')` in the tables print values only and are left out.
- Strings.StrLe: `localeCompare` is approximated by code-point lexicographic order. Locale collation is not modelled.
- Strings.Lower: `toLowerCase` is modelled for ASCII letters only.
- String lengths are counted in characters, not UTF-16 code units.
- AddTeacher.Valid: zod's e-mail regex is the parameter `isEmail`, not a concrete pattern.
- PaymentsTable.Newest: `new Date(date).getTime()` is the parameter `time`, assumed to give an integer for every stored date. An unparsable date, which gives NaN in the source and makes the comparator inconsistent, is not modelled.
- EditInvoice.DefaultValues: `new Date(invoice.dueDate)` is modelled as reading the calendar date (`ParseYmd`). An unparsable string gives no date, which the `z.date()` schema then rejects, as an Invalid Date would be. The code itself differs west of UTC. A date-only string parses as UTC midnight, and the picker at `edit-invoice-form.tsx:119` formats it in local time, so there the form opens on, and an untouched save sends, the previous day. This is the same shift as the Findings row for `student-details-modal.tsx:74`; the model keeps the stored date instead.
- StudentDetails.AsWrittenDefaultDate: a stored `0000-01-01` read west of UTC gives no date, because the previous day falls in year −1, which the date type does not hold.
- AttendanceRegister.AttendanceForm.constructor: `new Date(0)` is taken as the calendar date 1970-01-01 in every time zone. The mount effect replaces it at once with today's date, which the clock supplies; that effect is a call of `HandleDateChange` with the clock's date.
- The calendar pickers' `disabled` rules, and the dates a picker can offer, are left out.
- useFieldArray's generated row ids are not modelled; rows are plain sequences.
- ReportGenerator: the "subject analysis" report type only shows a notice in the source, and the model does the same.
- `handleDownloadPdf`'s PDF content is left out. Only its file name is modelled.
- The class list's PDF content is left out except the header, the body rows, the title string and the file name.
- Login: the `required` attribute on the password input is browser validation and is left out. An empty password fails the password test anyway.
- The welcome toast is left out.
- Sidebar: `commonLinks` and the 'Dashboard' title are initial values that every branch of the switch overwrites. The model starts from them too, and no result can contain them.

## Findings

| source | as written | input that shows it | evidently intended | confidence | as-written member | corrected member |
|---|---|---|---|---|---|---|
| src/components/dashboard/student-details-modal.tsx:74 | the default date of birth is `new Date(student.dateOfBirth)`. A date-only string parses as UTC midnight, and line 84 formats the picked date in local time | west of UTC (offset −300 minutes), the stored '2008-05-10' opens as 2008-05-09, and an untouched save sends '2008-05-09' | the stored calendar date is shown and sent back unchanged in every time zone | not executed | StudentDetails.AsWrittenShiftsBirthday | StudentDetails.DefaultsKeepBirthday |
