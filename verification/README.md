# Commit creation and commit commands of the gidok backend

gidok is a markdown-document editor. Its backend keeps documents as a ledger
of commits. A commit stores one edited page as lines ("blocks"), together
with a SHA-256 id and a link to its parent commit. This project models two
parts of that backend:

- the commit model: how a commit is built from the submitted form, and how
  `create_commit` inserts it as one commit row plus one block row per line,
  all-or-nothing;
- the two commit endpoints: `POST /{project_id}` creates a commit, and
  `PATCH /{project_id}` dispatches `push`, `merge` or `promote`.

The database is an abstract value `Db`: the `commits` table and the `blocks`
table, each a sequence of rows in insertion order. `create_commit` is a
transition from one `Db` to the next. Some values of a new commit row come
from the database itself: the `id` from its sequence, the `date` from its
clock, and `mode` from the column default. These arrive as a
`ColumnDefaults` parameter. A statement that raises is named by a `Fault`
parameter. SHA-256 is a parameter `digest: string -> string`.

Files:
- `options.dfy`: `Option`, for Python's `Optional` and nullable columns.
- `text.dfy`: `str.split("\n")`, `"\n".join(...)` and `str(int)`, with their
  round trips.
- `commit_model.dfy`: `CommitForm`, the commit object, the rows, parent
  selection and the insertion transaction.
- `commit_routes.dfy`: the create and patch endpoints.

## Model

| member | source | states |
|---|---|---|
| Text.Split | backend/app/models/commit_model.py:27 | `docs.split("\n")` is never empty, and no block contains a line feed |
| Text.SplitLength | backend/app/models/commit_model.py:27 | there is one more block than there are line feeds in `docs` |
| Text.JoinSplit | backend/app/models/commit_model.py:27 | joining the blocks with "\n" gives back `docs` exactly |
| Text.SplitJoin | backend/app/models/commit_model.py:27 | conversely, splitting a join of line-feed-free lines recovers those lines |
| Text.NatToString | backend/app/models/commit_model.py:36-40 | `str(n)` of a natural number is a non-empty string of decimal digits with no leading zero; `str(0)` is "0" |
| Text.NatToStringRoundTrip | backend/app/models/commit_model.py:36-40 | reading the digits of `str(n)` back gives `n` |
| Text.IntToStringNoNewline | backend/app/models/commit_model.py:36-40 | `str(i)` has no line feed, so the numeric fields of the hash source stay one line each |
| Text.IntToStringInjective | backend/app/models/commit_model.py:36-40 | distinct integers, negatives included, render differently |
| CommitModel.NewCommit | backend/app/models/commit_model.py:21-44 | a new commit is in mode "local" with status "normal"; it copies title, desc, page, old_start and old_end from the form; its blocks join back to `docs`; its hash is the digest of the hash source |
| CommitModel.HashSourceFields | backend/app/models/commit_model.py:35-42 | the hash source is, in order: project id, user id, `title or ""`, `desc or ""`, `"{old_start}-{old_end}-{page}"`, then the lines of `docs` |
| CommitModel.HashDeterminedByFields | backend/app/models/commit_model.py:35-44 | the hash depends only on those fields, so a `None` title or desc hashes like `""` |
| CommitModel.HashSourceAmbiguous | backend/app/models/commit_model.py:35-44 | fields are joined by a separator they may contain, so two different forms can share a hash source |
| CommitModel.NewestLocalIndex | backend/app/models/commit_model.py:71-79 | finds the newest row (by date) with the same user, the same project and mode 'local', or none when no such row exists; among equal dates it takes the last inserted |
| CommitModel.ParentOf | backend/app/models/commit_model.py:71-79 | `parent_id` is null exactly when the user has no local commit in the project; otherwise it is the id of a newest such commit |
| CommitModel.BlockRows | backend/app/models/commit_model.py:99-117 | block row i is `(project_id, page, i, blocks[i], commit id)` for every i, and nothing else |
| CommitModel.CreateCommit | backend/app/models/commit_model.py:46-97 | a raise inside the transaction block leaves both tables unchanged and returns `False`. Otherwise it returns the hash, appends one commit row and appends one block row per line in order. The commit row holds hash, project, user, title, description, old_start/old_end as start/end block index, and the selected parent |
| CommitModel.ExecuteCreateCommit | backend/app/models/commit_model.py:46-97 | the statement-by-statement transaction (commit insert, per-line block inserts, page update, commit) with rollback has the same effect as `CreateCommit` |
| CommitModel.CreateCommitPreservesWellFormed | backend/app/models/commit_model.py:59-117 | with a fresh id, commit ids stay unique and every block row still belongs to a stored commit |
| CommitModel.CreatedCommitIsNextParent | backend/app/models/commit_model.py:71-79 | take a stored local commit dated strictly later than the user's other local commits. It becomes the parent of that user's next commit in the project, on whatever page either commit is |
| CommitModel.PageOnlyOnBlockRows | backend/app/models/commit_model.py:50-117 | the page is not a column of the commit row. Forms that differ only in page give commit rows equal apart from the hash, and block rows that differ only in page number |
| CommitModel.HashIgnoresParentAndTime | backend/app/models/commit_model.py:86-97 | the returned and stored hash does not depend on the ledger (hence the parent), the date or the id |
| CommitRoutes.CreateCommitRoute | backend/app/routes/commit.py:10-28 | level ≥ 2 gets `{"msg": "error"}` with nothing stored. So does a page ≤ 0. Otherwise the commit is inserted. The reply is success with exactly the returned hash iff the insertion returns a truthy value |
| CommitRoutes.CreateRouteChangesTablesIffInserted | backend/app/routes/commit.py:15-23 | the tables change iff both checks pass and the transaction commits |
| CommitRoutes.PatchCommitRoute | backend/app/routes/commit.py:30-60 | push is always delegated. Merge and promote are delegated only at level 0 and otherwise get the admin-only message. Promote is called with the project alone. Any other cmd gets the fixed message and calls nothing |
| CommitRoutes.PushIgnoresAuthLevel | backend/app/routes/commit.py:36-42 | the reply to push does not depend on the auth level |
| CommitRoutes.PromoteIgnoresHash | backend/app/routes/commit.py:52-58 | the reply to promote does not depend on the submitted hash |
| CommitRoutes.NonAdminOnlyPushes | backend/app/routes/commit.py:43-58 | for a caller whose level is not 0, an operation is called iff cmd is push |

## Left out

- SHA-256 itself: `digest` is a parameter. The model states what the digest is computed from, not its value.
- psycopg2 connections, cursors, SQL text and `conn.close()`: the tables are the abstract `Db`. Each request is one atomic step, so concurrency between requests is left out.
- The commit row's `id`, `date` and `mode`: these come from column defaults of a schema that is not part of this model, so they are parameters. The constructor sets `mode = "local"` on the object, but the insert does not write that column.
- CommitModel.NewestLocalIndex: `ORDER BY date DESC LIMIT 1` leaves the choice among rows with equal dates to the database. The model breaks such ties towards the last inserted row. `ParentOf` and `CreateCommit` promise only "a newest row".
- `update_page`: `ProjectService` in backend/app/models/project_model.py does not define it. The model gives it no effect on the two tables, only the chance to raise (`PageUpdateFails`).
- `get_project` and `get_user_auth_level` are not defined in the shown files. The auth level is a parameter, and the project is its id.
- `push_commit`, `merge_commit` and `promote_commit` are not defined in the shown files. The patch endpoint reports which of them it calls and with which arguments. `outcome` gives the truthiness of the result. Their effect on the database is not modelled.
- `CommitCreateForm` and `CommitPatchForm` are imported by the route but not defined. The create form is `CommitForm`, and the patch form is `(cmd, hash)`.
- Token verification (`verify_token`), login, project creation and the React frontend are not part of this model.
- The commit object's `status` is never written to the database, so no row carries it.
- The parent of a new commit is the newest local commit of the same user in the project, on any page. Commits are not chained per page.
- The hash covers neither the parent nor the timestamp.
- `push_commit`, `merge_commit` and `promote_commit` are opaque to the model. No tier pointers, patch application or role management exist in the modelled code.
- CommitModel.CreateCommit: only exceptions inside the `try` block (backend/app/models/commit_model.py:48-90) are modelled, as a `Fault`. Some exceptions escape instead of returning `False`: `get_connection()` (line 47) runs before the `try`, and `conn.rollback()` (line 93) can itself raise. The constructor's `hash_source.encode()` (line 44) also raises on a lone surrogate, which Dafny's `string` cannot hold. The route does not catch any of these, so the caller gets an unhandled exception rather than `{"msg": "error"}`. The model has no outcome for that.
