/**
 The two commit endpoints: `POST /{project_id}` (create a commit) and
 `PATCH /{project_id}` (push, merge or promote one).

 The caller's auth level (`get_user_auth_level`) arrives as a number; level 0
 is the project's administrator. `push_commit`, `merge_commit` and
 `promote_commit` are not modelled: the patch endpoint reports which of them
 it calls, with which arguments, and `outcome` gives the truthiness of what
 that call returns.
 */
module CommitRoutes {
  import opened Options
  import opened Text
  import opened CommitModel

  /** A JSON reply `{"msg": ...}`, with a `"hash"` key when `hash` is present. */
  datatype Response = Response(msg: string, hash: Option<string>)

  const ErrorMsg: string := "error"
  const SuccessMsg: string := "success"

  const PushFailedMsg: string := "커밋을 푸쉬하지 못 했습니다."
  const PushedMsg: string := "커밋을 성공적으로 푸쉬했습니다."
  const MergeAdminOnlyMsg: string := "merge는 프로젝트의 관리자만 할 수 있습니다."
  const MergeFailedMsg: string := "커밋을 병합하지 못 했습니다."
  const MergedMsg: string := "커밋을 성공적으로 병합했습니다."
  const PromoteAdminOnlyMsg: string := "promote는 프로젝트의 관리자만 할 수 있습니다."
  const PromotedMsg: string := "release mode로 승격했습니다."
  const PromoteFailedMsg: string := "release mode로 승격하지 못 했습니다."
  const UnknownCmdMsg: string := "cmd값은 push, merge, promote 중 하나입니다."

  /** Python truthiness of what `create_commit` returns (`False` or a string). */
  predicate Truthy(r: CreateResult)
  {
    r.Created? && r.hash != ""
  }

  /**
   `POST /{project_id}`: rejects callers of auth level 2 or more, then
   non-positive pages, and otherwise builds the commit and inserts it.
   */
  function CreateCommitRoute(db: Db, projectId: int, userId: int, authLevel: int,
                             form: CommitForm, digest: string -> string,
                             d: ColumnDefaults, fault: Option<Fault>): (out: (Db, Response))
    ensures authLevel >= 2 ==> out == (db, Response(ErrorMsg, None))
    ensures form.page <= 0 ==> out == (db, Response(ErrorMsg, None))
    ensures out.1.msg == ErrorMsg || out.1.msg == SuccessMsg
    ensures out.1.msg == ErrorMsg <==> out.1.hash.None?
    ensures authLevel < 2 && form.page > 0 ==>
              out.0 == CreateCommit(db, NewCommit(form, projectId, userId, digest), d, fault).0
    ensures out.1.msg == SuccessMsg <==>
              authLevel < 2 && form.page > 0
              && !Raises(fault, CountNewlines(form.docs) + 1)
              && digest(HashSource(projectId, userId, form)) != ""
    ensures out.1.hash.Some? ==> out.1.hash.value == digest(HashSource(projectId, userId, form))
  {
    if authLevel >= 2 then (db, Response(ErrorMsg, None))
    else if form.page <= 0 then (db, Response(ErrorMsg, None))
    else
      var c := NewCommit(form, projectId, userId, digest);
      var (db', r) := CreateCommit(db, c, d, fault);
      if !Truthy(r) then (db', Response(ErrorMsg, None))
      else (db', Response(SuccessMsg, Some(r.hash)))
  }

  /**
   The tables change exactly when the request passes both checks and the
   insertion commits; the reply can still be an error then, if the digest is
   the (falsy) empty string.
   */
  lemma CreateRouteChangesTablesIffInserted(db: Db, projectId: int, userId: int, authLevel: int,
                                            form: CommitForm, digest: string -> string,
                                            d: ColumnDefaults, fault: Option<Fault>)
    ensures var out := CreateCommitRoute(db, projectId, userId, authLevel, form, digest, d, fault);
            out.0 != db <==> authLevel < 2 && form.page > 0 && !Raises(fault, CountNewlines(form.docs) + 1)
  {
    var out := CreateCommitRoute(db, projectId, userId, authLevel, form, digest, d, fault);
    if authLevel >= 2 || form.page <= 0 {
      assert out.0 == db;
    } else {
      var c := NewCommit(form, projectId, userId, digest);
      assert out.0 == CreateCommit(db, c, d, fault).0;
      assert |c.blocks| == CountNewlines(form.docs) + 1;
      if Raises(fault, |c.blocks|) {
        assert out.0 == db;
      } else {
        assert |out.0.commits| == |db.commits| + 1;
      }
    }
  }

  /** The body of `PATCH /{project_id}`. */
  datatype PatchForm = PatchForm(cmd: string, hash: string)

  /** A call of one of the commit operations the patch endpoint dispatches to. */
  datatype Call =
    | PushCall(hash: string, projectId: int, userId: int)
    | MergeCall(hash: string, projectId: int)
    | PromoteCall(projectId: int)

  /** The reply, and the operation called to produce it, if any. */
  datatype PatchReply = PatchReply(msg: string, call: Option<Call>)

  /**
   `PATCH /{project_id}`: `push` is open to every caller, `merge` and
   `promote` to administrators (level 0) only, and any other command is
   refused without calling anything.
   */
  function PatchCommitRoute(projectId: int, userId: int, authLevel: int, form: PatchForm,
                            outcome: Call -> bool): (r: PatchReply)
    ensures form.cmd == "push" ==>
              r.call == Some(PushCall(form.hash, projectId, userId))
              && r.msg == (if outcome(PushCall(form.hash, projectId, userId)) then PushedMsg else PushFailedMsg)
    ensures form.cmd == "merge" && authLevel != 0 ==> r == PatchReply(MergeAdminOnlyMsg, None)
    ensures form.cmd == "merge" && authLevel == 0 ==>
              r.call == Some(MergeCall(form.hash, projectId))
              && r.msg == (if outcome(MergeCall(form.hash, projectId)) then MergedMsg else MergeFailedMsg)
    ensures form.cmd == "promote" && authLevel != 0 ==> r == PatchReply(PromoteAdminOnlyMsg, None)
    ensures form.cmd == "promote" && authLevel == 0 ==>
              r.call == Some(PromoteCall(projectId))
              && r.msg == (if outcome(PromoteCall(projectId)) then PromotedMsg else PromoteFailedMsg)
    ensures form.cmd !in {"push", "merge", "promote"} ==> r == PatchReply(UnknownCmdMsg, None)
    ensures r.call.Some? && !r.call.value.PushCall? ==> authLevel == 0
  {
    if form.cmd == "push" then
      var call := PushCall(form.hash, projectId, userId);
      if !outcome(call) then PatchReply(PushFailedMsg, Some(call))
      else PatchReply(PushedMsg, Some(call))
    else if form.cmd == "merge" then
      if authLevel != 0 then PatchReply(MergeAdminOnlyMsg, None)
      else
        var call := MergeCall(form.hash, projectId);
        if !outcome(call) then PatchReply(MergeFailedMsg, Some(call))
        else PatchReply(MergedMsg, Some(call))
    else if form.cmd == "promote" then
      if authLevel != 0 then PatchReply(PromoteAdminOnlyMsg, None)
      else if outcome(PromoteCall(projectId)) then PatchReply(PromotedMsg, Some(PromoteCall(projectId)))
      else PatchReply(PromoteFailedMsg, Some(PromoteCall(projectId)))
    else PatchReply(UnknownCmdMsg, None)
  }

  /** The reply to `push` does not depend on the caller's auth level. */
  lemma PushIgnoresAuthLevel(projectId: int, userId: int, level1: int, level2: int,
                             form: PatchForm, outcome: Call -> bool)
    requires form.cmd == "push"
    ensures PatchCommitRoute(projectId, userId, level1, form, outcome)
         == PatchCommitRoute(projectId, userId, level2, form, outcome)
  {
  }

  /** `promote` never looks at the submitted hash. */
  lemma PromoteIgnoresHash(projectId: int, userId: int, authLevel: int, hash1: string, hash2: string,
                           outcome: Call -> bool)
    ensures PatchCommitRoute(projectId, userId, authLevel, PatchForm("promote", hash1), outcome)
         == PatchCommitRoute(projectId, userId, authLevel, PatchForm("promote", hash2), outcome)
  {
  }

  /** Only `push` is dispatched for a caller who is not the administrator. */
  lemma NonAdminOnlyPushes(projectId: int, userId: int, authLevel: int, form: PatchForm,
                           outcome: Call -> bool)
    requires authLevel != 0
    ensures var r := PatchCommitRoute(projectId, userId, authLevel, form, outcome);
            r.call.Some? <==> form.cmd == "push"
  {
  }
}
