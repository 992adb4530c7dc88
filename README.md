# Chemical equipment visualizer: the CSV upload pipeline in Dafny

This project models the core of the Django backend of the chemical equipment visualizer, together with two small rules of its React client.

A signed-in user uploads a CSV file of equipment readings: a name, a type, and the flowrate, pressure and temperature. The `upload` action of `DatasetViewSet` handles it in order:
- checks that a `file` part is present and that its name ends in `.csv`;
- checks the header for the five required columns;
- computes the row count, the three column means and the type-to-count distribution;
- stores a `Dataset` row, then one `Equipment` row per CSV row;
- trims the user's history to the five newest datasets.

The `history` action lists at most five of the user's datasets, newest first. `generate_report` checks a token and then builds the tables of a PDF report.

There are two apps:
- `equipment_api` is the full version.
- `equipments` is a copy with shorter error texts, a yes/no column check, and bare exception texts. Two further differences:
  - Its viewset sets no permission classes, so the project default `AllowAny` applies, where `equipment_api` requires an authenticated user. An anonymous upload therefore reaches this view and fails inside `create` with a 400 carrying the bare error text; `equipment_api` answers 401 before the view runs. Authentication is outside the model: the user is a parameter of both uploads.
  - Its `create` stores no uploaded file and does not rewind it. The file field is not modelled in either app, so the two store the same rows here.

The client derives its API base URL from `VITE_API_URL`. It adds `Authorization: Bearer <token>` to every request when a token is stored.

How it is modelled:
- **Records** holds the `Dataset` and `Equipment` shapes, their defaults, the two `Meta.ordering` rules and `Dataset.summary`.
- **Aggregation** holds the pure part of `upload`: the missing-column list, the means and the distribution.
- **Retention** is the specification of history trimming and of the `[:5]` history slice. It is written as functions over the sequence of stored datasets.
- **Store** is a `Database` class with the two tables and the key counter. Its methods create, bulk-insert and cascade-delete rows, and run the trimming loop. Each method is proved against the Retention functions.
- **UploadPipeline** holds the record-building loop and the store writes, shared by both apps.
- **EquipmentApiViews** and **EquipmentsViews** hold each app's validation, its whole upload (a pure `UploadOutcome` and a `Upload` method proved equal to it), the report's token check, and the report's table-building loops.
- **ApiClient** holds `getApiBaseUrl` and the request interceptor.

Things the code does that the model makes explicit:
- The `Dataset` row is created before the bulk insert, with no transaction around them. If the insert fails, the Dataset stays, with no Equipment, and the answer is still 400. Retention does not run in that case, so the user can then hold six or more datasets (`InsertFailureKeepsDataset`).
- `uploaded_at` ties are not ordered by the code. The model breaks them by the higher key first (`Records.Newer`). The "latest five are kept" properties are stated on `uploaded_at` alone, so they would hold under another tie-break as well. They are proved only for this one.
- The report check strips only the text `Token ` from the Authorization header. The client's interceptor and the desktop client send `Bearer <key>`, so such a header is looked up as a whole string and never as the key (`BearerHeaderNotKey`). The web pages pass the token as the `token` query parameter instead, and that parameter takes precedence.
- pandas gives NaN as the mean of no rows. Means are therefore an `Average`: either `NaN` or `Value(r)`.

The database, the clock and the token table are outside the model and become parameters:
- a `StoreFaults` value says whether `create` or `bulk_create` raises;
- `now` is the upload time;
- `tokens` maps keys to users.

`pd.read_csv` becomes a `CsvContent` value: either a header with parsed rows, or the text of the exception it raised.

## Model

| member | source | states |
|---|---|---|
| Records.FreshDataset | backend/equipment_api/models.py:13-17 | a new Dataset has total count 0, averages 0.0 and an empty distribution |
| Records.NewestFirst | backend/equipment_api/models.py:19-20 | the datasets reordered (same multiset), each no older than the next |
| Records.NewestFirstMonotone | backend/equipment_api/models.py:19-20 | in a newest-first listing, an earlier entry's `uploaded_at` is never below a later one's |
| Records.EquipmentOf | backend/equipment_api/models.py:49-50 | a dataset's Equipment is exactly its rows in the table, as a permutation, in ascending name order |
| Records.Round2 | backend/equipment_api/models.py:33-35 | `round(x, 2)` is within half a hundredth of x and is a whole number of hundredths |
| Records.Round2Idempotent | backend/equipment_api/models.py:33-35 | rounding an already rounded average changes nothing |
| Records.RoundAverage | backend/equipment_api/models.py:33-35 | a NaN average stays NaN, and a value becomes a whole number of hundredths within half a hundredth of it, which fixes it as the nearest hundredth (halves up) |
| Records.SummaryOf | backend/equipment_api/models.py:25-38 | `summary` passes id, filename, time, count and distribution through unchanged and rounds the three averages |
| Records.FreshSummary | backend/equipment_api/models.py:25-38 | the summary of a fresh Dataset reports count 0, averages 0.0 and an empty distribution |
| Store.Database.DeleteDataset | backend/equipment_api/models.py:42 | deleting a Dataset removes it and every Equipment row pointing at it, and no orphan remains |
| Retention.CascadeNoOrphans | backend/equipment_api/models.py:42 | cascade deletion of any set of datasets leaves no Equipment without its Dataset |
| Store.Database.DeleteUser | backend/equipment_api/models.py:7 | deleting a user removes all of that user's datasets and their Equipment and leaves other users' datasets as they were |
| Store.Database.CreateDataset | backend/equipment_api/views.py:152-161 | the new row gets a key no stored Dataset has and is appended, and the store stays consistent |
| Store.Database.BulkInsert | backend/equipment_api/views.py:177 | all records are appended in order, and consistency is kept |
| Aggregation.MissingColumnsInOrder | backend/equipment_api/views.py:132-133 | the missing columns are a subsequence of the required list, and the list is empty exactly when all five are present |
| Aggregation.Aggregate | backend/equipment_api/views.py:142-148 | total count is the row count; each of the three averages is the mean of its column, NaN exactly for no rows; the distribution maps exactly the row types, each to its number of occurrences |
| Aggregation.Distribution | backend/equipment_api/views.py:148 | every row type maps to its number of occurrences, at least one, and no other key is present |
| Aggregation.DistributionTotal | backend/equipment_api/views.py:148 | the distribution's counts sum to the number of rows |
| Aggregation.MeanBounds | backend/equipment_api/views.py:143-145 | a mean lies between any lower and upper bound of the values |
| Aggregation.AggregateSound | backend/equipment_api/views.py:142-148 | the distribution sums to total count, and the mean flowrate lies within the readings' bounds |
| EquipmentApiViews.Prepare | backend/equipment_api/views.py:112-139 | no file, a non-`.csv` name and an unreadable file each get their 400 text; success iff all required columns are present, with the computed statistics |
| EquipmentApiViews.MissingColumnsReported | backend/equipment_api/views.py:132-139 | a header lacking columns is refused with a message naming exactly those columns, in the required order |
| UploadPipeline.BuildRecords | backend/equipment_api/views.py:164-176 | one record per row, in row order, copying name, type and readings and pointing at the new Dataset |
| UploadPipeline.Persist | backend/equipment_api/views.py:150-185 | a failed create changes nothing; a failed insert keeps the created Dataset; only success stores the records and trims |
| UploadPipeline.PersistUpload | backend/equipment_api/views.py:150-185 | the database calls of `upload` leave exactly the store `Persist` describes |
| UploadPipeline.PersistConsistent | backend/equipment_api/views.py:150-185 | the writes keep keys unique and leave no orphan Equipment |
| UploadPipeline.PersistRetains | backend/equipment_api/views.py:179-185 | after success the user has min(old+1, 5) datasets; nothing is deleted up to five; only the user's are deleted, none newer than one kept; others untouched |
| UploadPipeline.PersistListsNew | backend/equipment_api/views.py:179-190 | with a clock that does not go back, the new Dataset survives, is in the history, and lists exactly its built records |
| EquipmentApiViews.UploadOutcome | backend/equipment_api/views.py:110-196 | a refused file leaves the store unchanged with the refusal text; 201 iff validation and both writes succeed; a failed create is 400 with the error text |
| EquipmentApiViews.Upload | backend/equipment_api/views.py:110-196 | the upload on the database gives the response and store `UploadOutcome` describes and keeps the store consistent |
| EquipmentApiViews.UploadConsistent | backend/equipment_api/views.py:110-196 | every upload request leaves the store consistent |
| EquipmentApiViews.InsertFailureKeepsDataset | backend/equipment_api/views.py:150-196 | a failed bulk insert answers 400 yet leaves the new Dataset, with no Equipment, raising the user's count by one |
| EquipmentApiViews.UploadRetention | backend/equipment_api/views.py:179-185 | after a 201 the user holds min(old+1, 5) datasets; only the user's oldest go; other users are untouched |
| EquipmentApiViews.UploadThenHistory | backend/equipment_api/views.py:187-190 | the 201 body carries the file's name, the row count and exactly the uploaded rows as Equipment, and the Dataset is in the history |
| Retention.RetainCount | backend/equipment_api/views.py:180-185 | after trimming the user holds min(n, 5) datasets |
| Retention.RetainFew | backend/equipment_api/views.py:181 | with five or fewer datasets nothing is deleted |
| Retention.RetainOthers | backend/equipment_api/views.py:180-185 | trimming never touches another user's datasets |
| Retention.RetainKeepsLatest | backend/equipment_api/views.py:180-185 | only the user's datasets are deleted, and each kept one is no older than each deleted one |
| Retention.RetainKeepsNewest | backend/equipment_api/views.py:180-185 | the newest dataset survives trimming and is in the history |
| Store.Database.EnforceRetention | backend/equipment_api/views.py:180-185 | the deletion loop over `user_datasets[5:]` leaves exactly the trimmed store, with cascades |
| Retention.LatestFive | backend/equipment_api/views.py:100-102 | history lists min(n, 5) distinct datasets of the user (a sub-multiset of them), newest first, none left out newer than one listed |
| EquipmentApiViews.FindDataset | backend/equipment_api/views.py:235 | the lookup finds a dataset iff the key is stored, and it is the one with that key |
| EquipmentApiViews.TokenHeaderYieldsKey | backend/equipment_api/views.py:238 | a `Token <key>` header yields the key, unless a non-empty query token takes precedence |
| EquipmentApiViews.BearerHeaderNotKey | backend/equipment_api/views.py:238 | a `Bearer <key>` header is never reduced to the key |
| EquipmentApiViews.CheckReport | backend/equipment_api/views.py:235-248 | missing dataset 500, no token 401, unknown token 401, another user's token 403, and access iff the token belongs to the owner |
| EquipmentApiViews.ReportOwnerOnly | backend/equipment_api/views.py:235-248 | for a stored dataset, a known token is granted iff its user owns the dataset, and refused only with 403 |
| EquipmentApiViews.DistributionTable | backend/equipment_api/views.py:318-324 | header plus one two-cell row per entry, or header plus `No data`/`0`; at least two rows |
| EquipmentApiViews.DistributionRowReadsBack | backend/equipment_api/views.py:321-322 | each row names its type, and its count text reads back as the stored count |
| EquipmentApiViews.PlaceholderUnambiguous | backend/equipment_api/views.py:318-324 | no row of an uploaded distribution equals the `No data` placeholder |
| EquipmentApiViews.EquipmentTable | backend/equipment_api/views.py:344-356 | header plus one five-cell row per record in order, or header plus the `No equipment` row; at least two rows |
| Text.NatToStringRoundTrip | backend/equipment_api/views.py:322 | `str(count)` is decimal digits that read back as the count |
| EquipmentsViews.Prepare | backend/equipments/views.py:19-37 | no file, a non-`.csv` name, an unreadable file and a missing column each get this app's 400 text; success carries the statistics |
| EquipmentsViews.PreparesAgree | backend/equipments/views.py:28-31 | both apps accept the same files with the same statistics; for missing columns this app's text is generic, the other names them |
| EquipmentsViews.UploadOutcome | backend/equipments/views.py:18-71 | a refused file changes nothing; 201 iff validation and both writes succeed; an error answers 400 with the bare exception text |
| EquipmentsViews.Upload | backend/equipments/views.py:18-71 | the upload on the database gives the response and store `UploadOutcome` describes |
| EquipmentsViews.UploadsAgree | backend/equipments/views.py:39-68 | both apps leave the same store after every request and answer an accepted upload identically |
| EquipmentsViews.UploadThenHistory | backend/equipments/views.py:14-15 | after a 201 the history holds at most five of the user's datasets, the new one among them |
| ApiClient.StripTrailingSlash | frontend/src/services/api.js:11 | one final `/` is dropped if present, otherwise the URL is unchanged |
| ApiClient.GetApiBaseUrl | frontend/src/services/api.js:6-16 | the result always ends in `/api`: the placeholder when unset or empty, else the normalised URL, with `/api` appended only when missing |
| ApiClient.BaseUrlIdempotent | frontend/src/services/api.js:11-12 | feeding the result back in returns it unchanged |
| ApiClient.OneSlashRemoved | frontend/src/services/api.js:11 | only one slash goes: `x//` gives `x//api` |
| ApiClient.ApiSuffixKept | frontend/src/services/api.js:12 | a URL ending in `/api` or `/api/` keeps a single `/api` |
| ApiClient.WithAuthorization | frontend/src/services/api.js:30-36 | `Authorization` becomes `Bearer <token>` exactly when a non-empty token is stored, and no other header changes |
| ApiClient.RequestConfig.AttachToken | frontend/src/services/api.js:30-36 | the interceptor changes the request's headers in place as `WithAuthorization` says |

## Left out

- CSV parsing by `pd.read_csv` is not modelled. The parsed header and rows, or the text of the exception, are the input `CsvContent`. A file that has all five required columns but a non-numeric reading, which pandas rejects while computing a mean, arrives as `Unreadable`. Both views check the columns before computing any mean (backend/equipment_api/views.py:133-145, backend/equipments/views.py:30-36). So a file that lacks a required column is a `Frame` whatever its rows hold, and it gets the missing-columns 400.
- Rows with empty cells are outside the model: every `Row` is complete. pandas reads an empty cell as NaN, and the source accepts such a file. `mean()` skips NaN readings, so the mean is taken over fewer rows. `value_counts()` drops a NaN type, so the distribution's counts add up to less than the total count. What happens next depends on the database. On the default SQLite database (backend/backend/settings.py:89-104), a NaN float is bound as NULL, so `bulk_create` into the NOT NULL reading columns raises. That is the insert-failure path: a 400 with the Dataset kept. On PostgreSQL, reached through `DATABASE_URL`, the Equipment row is stored with the NaN reading. `DistributionTotal` and the mean properties are proved only for complete rows.
- EquipmentApiViews.UploadOutcome and EquipmentsViews.UploadOutcome: a `.csv` with the five columns and no rows is answered `Created` with NaN averages only when the caller's `StoreFaults` lets the create succeed. That 201 never reaches a client. On the default SQLite database a NaN float is bound as NULL, and the averages are NOT NULL columns (backend/equipment_api/models.py:14-16). So `Dataset.objects.create` raises, nothing is stored, and the answer is the create-failure 400 (in the model, a `createError`). On PostgreSQL the Dataset is stored and the history trimmed. Then the strict JSON renderer rejects the NaN average after the view has returned, so the client gets a 500 after the writes. The model has no outcome for a failure after the view returns. The database is a parameter of the model, so neither behaviour is derived from the row count.
- Records.NameAtMost: compares names by code point, which is SQLite's default BINARY collation. A database reached through `DATABASE_URL` with a locale collation orders `equipment_name` differently, so `EquipmentOf`'s name order is the SQLite one.
- Aggregation.Mean: computed on reals, not IEEE doubles. Rounding error and overflow of the float sum are not modelled.
- Records.Round2: rounds halves upwards on exact reals. Python's `round` works on the binary double and rounds ties to even.
- The descending-count order of `value_counts` is pandas behaviour, not repository code. It is the `keys` parameter of `DistributionTable`.
- EquipmentApiViews.DistributionTable: the `isinstance(..., dict)` and `or {}` guards are not modelled. The stored distribution is always a map here, so a JSON value that is not a dict cannot occur.
- The 1- and 2-decimal text formatting of readings and averages is not modelled. Cells carry the number and its decimal places.
- PDF layout and output (ReportLab styles, paragraphs, page breaks, the summary-statistics table, `doc.build`) are not modelled, and neither is the `Content-Disposition` header. Only the distribution and equipment table rows are modelled.
- Records.NewestFirst: ties in `uploaded_at` are broken by the higher key. The database leaves such ties unordered.
- UploadPipeline.PersistListsNew and both UploadThenHistory lemmas: they assume a clock that never runs backwards. With an earlier clock the new Dataset could itself be trimmed.
- Django's ORM, database errors other than a failing `create` or `bulk_create`, file storage (`FileField`, `file.seek`) and Equipment primary keys are not modelled. `bulk_create` is treated as all-or-nothing.
- Token issuance and JWT authentication are not modelled. The report's token table is the `tokens` parameter.
- The read-then-delete race between two concurrent uploads by the same user is not modelled; each request runs alone.
- The `summary` action's Min/Max aggregates, `register`, `login`, `logout`, `current_user`, the `retrieve` serializer choice and the `equipment_count` field are not modelled; they are outside the upload pipeline.
- The client's 401 response interceptor (browser storage and redirect), the React pages, the desktop client and the FastAPI variant (`backend/main.py`, `backend/database.py`, `backend/models.py`) are not modelled.
- backend/equipments/models.py is not part of this model. The `equipments` app is assumed to use the same Dataset and Equipment shapes and orderings as `equipment_api`.
