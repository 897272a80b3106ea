/**
 The commit model of the backend (`Commit`, `CommitForm`): building a commit
 from a submitted form and inserting it, with one row per line of text, into
 the commit ledger.

 The database is an abstract value `Db`: the `commits` table as a sequence of
 rows in insertion order and the `blocks` table likewise. The values the
 database itself supplies for a new commit row (the `id` from its sequence,
 the `date` from its clock and the `mode` column default) arrive as
 `ColumnDefaults`; a statement that raises is named by a `Fault`.
 */
module CommitModel {
  import opened Options
  import opened Text

  const LocalMode: string := "local"
  const NormalStatus: string := "normal"

  /** The submitted form; `title` and `desc` may be absent (`None`). */
  datatype CommitForm = CommitForm(
    oldStart: int,
    oldEnd: int,
    page: int,
    docs: string,
    title: Option<string>,
    desc: Option<string>)

  /** A commit object as the constructor leaves it, before insertion. */
  datatype Commit = Commit(
    projectId: int,
    userId: int,
    blocks: seq<string>,
    title: Option<string>,
    desc: Option<string>,
    page: int,
    oldStart: int,
    oldEnd: int,
    mode: string,
    status: string,
    hash: string)

  /** A row of the `commits` table. It has no page column. */
  datatype CommitRow = CommitRow(
    id: nat,
    sha256: string,
    projectId: int,
    userId: int,
    parentId: Option<nat>,
    title: Option<string>,
    description: Option<string>,
    startBlockIndex: int,
    endBlockIndex: int,
    mode: string,
    date: int)

  /** A row of the `blocks` table: one line of a commit's text. */
  datatype BlockRow = BlockRow(
    projectId: int,
    pageNumber: int,
    blockIndex: nat,
    content: string,
    commitId: nat)

  datatype Db = Db(commits: seq<CommitRow>, blocks: seq<BlockRow>)

  /** What the database fills in for the columns the insert leaves out. */
  datatype ColumnDefaults = ColumnDefaults(id: nat, date: int, mode: string)

  /** The statement of the insertion transaction that raises. */
  datatype Fault =
    | CommitInsertFails
    | BlockInsertFails(index: nat)
    | PageUpdateFails
    | TxCommitFails

  /** What `create_commit` returns: the commit's hash, or `False`. */
  datatype CreateResult = Created(hash: string) | Failed

  /** Python's `x or ""` on an optional string. */
  function OrEmpty(o: Option<string>): string
  {
    match o
    case None => ""
    case Some(s) => s
  }

  /** The `f"{old_start}-{old_end}-{page}"` field of the hash source. */
  function RangeField(oldStart: int, oldEnd: int, page: int): string
  {
    IntToString(oldStart) + "-" + IntToString(oldEnd) + "-" + IntToString(page)
  }

  lemma RangeFieldNoNewline(oldStart: int, oldEnd: int, page: int)
    ensures '\n' !in RangeField(oldStart, oldEnd, page)
  {
    IntToStringNoNewline(oldStart);
    IntToStringNoNewline(oldEnd);
    IntToStringNoNewline(page);
    var a, b, c := IntToString(oldStart), IntToString(oldEnd), IntToString(page);
    assert RangeField(oldStart, oldEnd, page) == ((a + "-") + (b + "-")) + c;
    assert '\n' !in a + "-";
    assert '\n' !in b + "-";
    assert '\n' !in (a + "-") + (b + "-");
  }

  /** The text whose SHA-256 digest identifies a commit. */
  function HashSource(projectId: int, userId: int, form: CommitForm): string
  {
    Join([IntToString(projectId), IntToString(userId), OrEmpty(form.title),
          OrEmpty(form.desc), RangeField(form.oldStart, form.oldEnd, form.page),
          form.docs])
  }

  /** The hash source written out: six fields separated by line feeds. */
  lemma HashSourceExpanded(projectId: int, userId: int, form: CommitForm)
    ensures HashSource(projectId, userId, form)
         == IntToString(projectId) + "\n" + (IntToString(userId) + "\n" + (OrEmpty(form.title) + "\n"
            + (OrEmpty(form.desc) + "\n" + (RangeField(form.oldStart, form.oldEnd, form.page) + "\n"
            + form.docs))))
  {
    var r := RangeField(form.oldStart, form.oldEnd, form.page);
    JoinCons(r, [form.docs]);
    JoinCons(OrEmpty(form.desc), [r, form.docs]);
    JoinCons(OrEmpty(form.title), [OrEmpty(form.desc), r, form.docs]);
    JoinCons(IntToString(userId), [OrEmpty(form.title), OrEmpty(form.desc), r, form.docs]);
    JoinCons(IntToString(projectId), [IntToString(userId), OrEmpty(form.title), OrEmpty(form.desc), r, form.docs]);
  }

  /**
   `Commit(form, project, user)`. `digest` stands for
   `hashlib.sha256(...).hexdigest()`, which the model does not compute.
   */
  function NewCommit(form: CommitForm, projectId: int, userId: int,
                     digest: string -> string): (c: Commit)
    ensures c.mode == LocalMode && c.status == NormalStatus
    ensures c.projectId == projectId && c.userId == userId
    ensures c.title == form.title && c.desc == form.desc && c.page == form.page
    ensures c.oldStart == form.oldStart && c.oldEnd == form.oldEnd
    ensures Join(c.blocks) == form.docs
    ensures |c.blocks| == CountNewlines(form.docs) + 1
    ensures forall i :: 0 <= i < |c.blocks| ==> '\n' !in c.blocks[i]
    ensures c.hash == digest(HashSource(projectId, userId, form))
  {
    JoinSplit(form.docs);
    SplitLength(form.docs);
    Commit(projectId, userId, Split(form.docs), form.title, form.desc,
           form.page, form.oldStart, form.oldEnd, LocalMode, NormalStatus,
           digest(HashSource(projectId, userId, form)))
  }

  /**
   With line-feed-free title and description, the hash source splits back
   into its six fields in their fixed order, the text last.
   */
  lemma HashSourceFields(projectId: int, userId: int, form: CommitForm)
    requires '\n' !in OrEmpty(form.title) && '\n' !in OrEmpty(form.desc)
    ensures Split(HashSource(projectId, userId, form))
         == [IntToString(projectId), IntToString(userId), OrEmpty(form.title),
             OrEmpty(form.desc), RangeField(form.oldStart, form.oldEnd, form.page)]
            + Split(form.docs)
  {
    IntToStringNoNewline(projectId);
    IntToStringNoNewline(userId);
    RangeFieldNoNewline(form.oldStart, form.oldEnd, form.page);
    var fields := [IntToString(projectId), IntToString(userId), OrEmpty(form.title),
                   OrEmpty(form.desc), RangeField(form.oldStart, form.oldEnd, form.page)];
    assert fields + [form.docs]
        == [IntToString(projectId), IntToString(userId), OrEmpty(form.title),
            OrEmpty(form.desc), RangeField(form.oldStart, form.oldEnd, form.page), form.docs];
    JoinAppend(fields, form.docs);
    SplitLeadingLines(fields, form.docs);
  }

  /**
   The hash is a function of project id, user id, `title or ""`,
   `desc or ""`, the old range, the page and the text alone: a missing title
   or description hashes like an empty one.
   */
  lemma HashDeterminedByFields(f1: CommitForm, f2: CommitForm, projectId: int,
                               userId: int, digest: string -> string)
    requires OrEmpty(f1.title) == OrEmpty(f2.title)
    requires OrEmpty(f1.desc) == OrEmpty(f2.desc)
    requires f1.oldStart == f2.oldStart && f1.oldEnd == f2.oldEnd
    requires f1.page == f2.page && f1.docs == f2.docs
    ensures NewCommit(f1, projectId, userId, digest).hash
         == NewCommit(f2, projectId, userId, digest).hash
  {
  }

  /**
   The fields are joined with the separator they may themselves contain, so
   two different forms can share one hash source and hence one hash.
   */
  lemma HashSourceAmbiguous(projectId: int, userId: int)
    ensures var f1 := CommitForm(0, 0, 1, "x", Some("a\nb"), Some("c"));
            var f2 := CommitForm(0, 0, 1, "x", Some("a"), Some("b\nc"));
            f1 != f2 && HashSource(projectId, userId, f1) == HashSource(projectId, userId, f2)
  {
    var f1 := CommitForm(0, 0, 1, "x", Some("a\nb"), Some("c"));
    var f2 := CommitForm(0, 0, 1, "x", Some("a"), Some("b\nc"));
    var r := RangeField(0, 0, 1);
    HashSourceExpanded(projectId, userId, f1);
    HashSourceExpanded(projectId, userId, f2);
    assert "a\nb" + "\n" + ("c" + "\n" + (r + "\n" + "x")) == "a" + "\n" + ("b\nc" + "\n" + (r + "\n" + "x"));
  }

  /** A row the parent subquery considers: same user, same project, local mode. */
  predicate IsLocalOf(row: CommitRow, userId: int, projectId: int)
  {
    row.userId == userId && row.projectId == projectId && row.mode == LocalMode
  }

  predicate HasLocalOf(rows: seq<CommitRow>, userId: int, projectId: int)
  {
    exists i :: 0 <= i < |rows| && IsLocalOf(rows[i], userId, projectId)
  }

  /** `rows[k]` is a row `ORDER BY date DESC LIMIT 1` may return. */
  predicate IsNewestLocal(rows: seq<CommitRow>, userId: int, projectId: int, k: nat)
  {
    && k < |rows|
    && IsLocalOf(rows[k], userId, projectId)
    && forall i :: 0 <= i < |rows| && IsLocalOf(rows[i], userId, projectId) ==>
         rows[i].date <= rows[k].date
  }

  /**
   Position of the newest local row of the user in the project; among rows
   with the same date the one inserted last wins.
   */
  function NewestLocalIndex(rows: seq<CommitRow>, userId: int, projectId: int): (k: Option<nat>)
    ensures k.None? <==> !HasLocalOf(rows, userId, projectId)
    ensures k.Some? ==> IsNewestLocal(rows, userId, projectId, k.value)
    ensures k.Some? ==> forall i :: k.value < i < |rows| ==>
              !IsLocalOf(rows[i], userId, projectId) || rows[i].date < rows[k.value].date
  {
    if |rows| == 0 then None
    else
      var last := |rows| - 1;
      var prefix := rows[..last];
      assert forall i :: 0 <= i < last ==> prefix[i] == rows[i];
      var best := NewestLocalIndex(prefix, userId, projectId);
      if IsLocalOf(rows[last], userId, projectId)
         && (best.None? || rows[best.value].date <= rows[last].date)
      then Some(last)
      else best
  }

  /** The `parent_id` subquery of the commit insert. */
  function ParentOf(rows: seq<CommitRow>, userId: int, projectId: int): (p: Option<nat>)
    ensures p.None? <==> !HasLocalOf(rows, userId, projectId)
    ensures p.Some? ==> exists k: nat :: IsNewestLocal(rows, userId, projectId, k) && rows[k].id == p.value
  {
    match NewestLocalIndex(rows, userId, projectId)
    case None => None
    case Some(k) => Some(rows[k].id)
  }

  /** The rows `_insert_block` writes for `enumerate(blocks)`. */
  function BlockRows(projectId: int, page: int, blocks: seq<string>, commitId: nat): (rows: seq<BlockRow>)
    ensures |rows| == |blocks|
    ensures forall i :: 0 <= i < |blocks| ==>
              rows[i] == BlockRow(projectId, page, i, blocks[i], commitId)
  {
    if |blocks| == 0 then []
    else
      var last := |blocks| - 1;
      BlockRows(projectId, page, blocks[..last], commitId)
        + [BlockRow(projectId, page, last, blocks[last], commitId)]
  }

  function CommitRowOf(c: Commit, parentId: Option<nat>, d: ColumnDefaults): CommitRow
  {
    CommitRow(d.id, c.hash, c.projectId, c.userId, parentId, c.title, c.desc,
              c.oldStart, c.oldEnd, d.mode, d.date)
  }

  /** Whether the transaction raises when `blockCount` blocks are inserted. */
  predicate Raises(fault: Option<Fault>, blockCount: nat)
  {
    match fault
    case None => false
    case Some(BlockInsertFails(i)) => i < blockCount
    case Some(_) => true
  }

  /** The block rows `after` holds beyond `before`: one per line, in order. */
  predicate AddsBlockRows(before: seq<BlockRow>, after: seq<BlockRow>, c: Commit, commitId: nat)
  {
    && |after| == |before| + |c.blocks|
    && after[..|before|] == before
    && forall i :: 0 <= i < |c.blocks| ==>
         after[|before| + i] == BlockRow(c.projectId, c.page, i, c.blocks[i], commitId)
  }

  /**
   `Commit.create_commit` as one all-or-nothing transition: on success one
   commit row and one block row per line are appended and the hash is
   returned; if any statement raises, the state is left as it was.
   */
  function CreateCommit(db: Db, c: Commit, d: ColumnDefaults, fault: Option<Fault>): (out: (Db, CreateResult))
    ensures Raises(fault, |c.blocks|) ==> out.0 == db && out.1 == Failed
    ensures !Raises(fault, |c.blocks|) ==> out.1 == Created(c.hash)
    ensures !Raises(fault, |c.blocks|) ==>
      && |out.0.commits| == |db.commits| + 1
      && out.0.commits[..|db.commits|] == db.commits
      && AddsBlockRows(db.blocks, out.0.blocks, c, d.id)
    ensures !Raises(fault, |c.blocks|) ==>
      var row := out.0.commits[|db.commits|];
      && row.id == d.id && row.date == d.date && row.mode == d.mode
      && row.sha256 == c.hash && row.projectId == c.projectId && row.userId == c.userId
      && row.title == c.title && row.description == c.desc
      && row.startBlockIndex == c.oldStart && row.endBlockIndex == c.oldEnd
      && (row.parentId.None? <==> !HasLocalOf(db.commits, c.userId, c.projectId))
      && (row.parentId.Some? ==>
            exists k: nat :: IsNewestLocal(db.commits, c.userId, c.projectId, k)
                        && db.commits[k].id == row.parentId.value)
  {
    if Raises(fault, |c.blocks|) then (db, Failed)
    else
      var row := CommitRowOf(c, ParentOf(db.commits, c.userId, c.projectId), d);
      var blocks := BlockRows(c.projectId, c.page, c.blocks, d.id);
      assert (db.blocks + blocks)[..|db.blocks|] == db.blocks;
      (Db(db.commits + [row], db.blocks + blocks), Created(c.hash))
  }

  /**
   The statements of `create_commit` in their order: the commit insert, one
   `_insert_block` per line, the page update, the transaction commit; the
   first one that raises rolls everything back.
   */
  method ExecuteCreateCommit(db: Db, c: Commit, d: ColumnDefaults, fault: Option<Fault>)
      returns (db': Db, result: CreateResult)
    ensures (db', result) == CreateCommit(db, c, d, fault)
  {
    if fault == Some(CommitInsertFails) {
      return db, Failed;
    }
    var row := CommitRowOf(c, ParentOf(db.commits, c.userId, c.projectId), d);
    var work := Db(db.commits + [row], db.blocks);
    var i := 0;
    while i < |c.blocks|
      invariant 0 <= i <= |c.blocks|
      invariant work.commits == db.commits + [row]
      invariant work.blocks == db.blocks + BlockRows(c.projectId, c.page, c.blocks[..i], d.id)
      invariant forall j :: 0 <= j < i ==> fault != Some(BlockInsertFails(j))
    {
      if fault == Some(BlockInsertFails(i)) {
        return db, Failed;
      }
      assert c.blocks[..i + 1][..i] == c.blocks[..i];
      work := work.(blocks := work.blocks + [BlockRow(c.projectId, c.page, i, c.blocks[i], d.id)]);
      i := i + 1;
    }
    if fault == Some(PageUpdateFails) || fault == Some(TxCommitFails) {
      return db, Failed;
    }
    assert c.blocks[..i] == c.blocks;
    if fault.Some? && fault.value.BlockInsertFails? {
      assert fault == Some(BlockInsertFails(fault.value.index));
    }
    return work, Created(c.hash);
  }

  function CommitIds(rows: seq<CommitRow>): set<nat>
  {
    set r | r in rows :: r.id
  }

  /** Commit ids are unique and every block row belongs to a stored commit. */
  predicate WellFormed(db: Db)
  {
    && (forall i, j :: 0 <= i < j < |db.commits| ==> db.commits[i].id != db.commits[j].id)
    && (forall b :: b in db.blocks ==> b.commitId in CommitIds(db.commits))
  }

  /** Inserting a commit under a fresh id keeps the tables well formed. */
  lemma CreateCommitPreservesWellFormed(db: Db, c: Commit, d: ColumnDefaults, fault: Option<Fault>)
    requires WellFormed(db)
    requires d.id !in CommitIds(db.commits)
    ensures WellFormed(CreateCommit(db, c, d, fault).0)
  {
  }

  /**
   A commit stored in local mode and dated later than the user's other local
   commits in the project becomes the parent of that user's next commit in
   the project, whatever page either commit is on.
   */
  lemma CreatedCommitIsNextParent(db: Db, c: Commit, d: ColumnDefaults, fault: Option<Fault>,
                                  c2: Commit, d2: ColumnDefaults, fault2: Option<Fault>)
    requires !Raises(fault, |c.blocks|)
    requires d.mode == LocalMode
    requires forall i :: 0 <= i < |db.commits| && IsLocalOf(db.commits[i], c.userId, c.projectId) ==>
               db.commits[i].date < d.date
    requires c2.userId == c.userId && c2.projectId == c.projectId
    requires !Raises(fault2, |c2.blocks|)
    ensures var db1 := CreateCommit(db, c, d, fault).0;
            CreateCommit(db1, c2, d2, fault2).0.commits[|db1.commits|].parentId == Some(d.id)
  {
  }

  /** Rows equal in every column except the digest. */
  predicate SameBesidesHash(r1: CommitRow, r2: CommitRow)
  {
    r1.(sha256 := r2.sha256) == r2
  }

  /**
   The page number reaches the stored commit row only through the hash: two
   forms that differ only in their page yield commit rows that agree in every
   other column (the parent included), while each block row carries its
   form's page.
   */
  lemma PageOnlyOnBlockRows(db: Db, form: CommitForm, page: int, projectId: int, userId: int,
                            digest: string -> string, d: ColumnDefaults, fault: Option<Fault>)
    requires !Raises(fault, CountNewlines(form.docs) + 1)
    ensures var c1 := NewCommit(form, projectId, userId, digest);
            var c2 := NewCommit(form.(page := page), projectId, userId, digest);
            var out1 := CreateCommit(db, c1, d, fault).0;
            var out2 := CreateCommit(db, c2, d, fault).0;
            && SameBesidesHash(out1.commits[|db.commits|], out2.commits[|db.commits|])
            && |out2.blocks| == |out1.blocks|
            && (forall i :: |db.blocks| <= i < |out2.blocks| ==>
                  out2.blocks[i] == out1.blocks[i].(pageNumber := page))
  {
  }

  /**
   The returned and stored hash is the constructor's: neither the ledger
   (hence the parent) nor the row's date or id enters it.
   */
  lemma HashIgnoresParentAndTime(db1: Db, db2: Db, c: Commit, d1: ColumnDefaults, d2: ColumnDefaults,
                                 fault: Option<Fault>)
    requires !Raises(fault, |c.blocks|)
    ensures CreateCommit(db1, c, d1, fault).1 == CreateCommit(db2, c, d2, fault).1 == Created(c.hash)
    ensures CreateCommit(db1, c, d1, fault).0.commits[|db1.commits|].sha256
         == CreateCommit(db2, c, d2, fault).0.commits[|db2.commits|].sha256
  {
  }
}
