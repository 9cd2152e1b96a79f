/** The comment service: each call edits a comment and its mention and notification rows in one transaction. */
module CommentService {
  import opened Options
  import opened MentionSync

  type Outcome = Attempt<(), Error>

  class Service {
    var comments: map<Id, Comment>
    var mentions: map<Id, Mention>
    var notices: map<Id, Notice>

    /** Each comment is mentioned to exactly the users it names, in one row each, with one notification for each live row. */
    ghost predicate Valid()
      reads this
    {
      RowsAgree(mentions, notices) && InStep(comments, mentions)
    }

    constructor ()
      ensures Valid() && comments == map[]
    {
      comments, mentions, notices := map[], map[], map[];
    }

    // -------------------------------------------------------------- rows

    method RemoveMention(m: Id, at: Time)
      requires m in mentions
      modifies this`mentions, this`notices
      ensures mentions == old(mentions)[m := old(mentions)[m].(deletedAt := Some(at), readAt := Some(at))]
      ensures notices == old(notices) - {m}
    {
      mentions := mentions[m := mentions[m].(deletedAt := Some(at), readAt := Some(at))];
      notices := notices - {m};
    }

    /** The first loop of `sync_for_comment`, and the whole of `remove_all_for_comment`: removes the mentions of `users`. */
    method RemoveMentions(c: Id, users: set<Id>, ghost ids: map<Id, Id>, ghost actor: Id, at: Time)
      requires RowsAgree(mentions, notices) && users <= ActiveUsers(mentions, c) && forall k <- ids :: k !in mentions
      modifies this`mentions, this`notices
      ensures mentions == Synced(old(mentions), ids, c, users, {}, actor, at)
      ensures notices == SyncedNotices(old(notices), mentions, c, users, {}, actor)
    {
      hide MentionSync.Synced, MentionSync.SyncedNotices, MentionSync.Noticed;
      ghost var rows, sent := mentions, notices;
      var left := users;
      NobodyTouched(rows, sent, ids, c, actor, at);
      assert users - left == {};
      while left != {}
        invariant left <= users
        invariant mentions == Synced(rows, ids, c, users - left, {}, actor, at)
        invariant notices == SyncedNotices(sent, mentions, c, users - left, {}, actor)
        decreases left
      {
        var u :| u in left;
        RowOfActive(rows, ids, c, u, users - left, actor, at);
        var m :| m in mentions && mentions[m].comment == c && mentions[m].user == u;
        SyncedRowIsOld(rows, ids, c, u, m, users - left, actor, at);
        OneMoreGone(rows, sent, ids, c, users - left, u, m, actor, at);
        RemoveMention(m, at);
        assert users - (left - {u}) == (users - left) + {u};
        left := left - {u};
      }
      assert users - left == users;
    }

    /** The second loop of `sync_for_comment`: revives or adds a mention for each of `users`. */
    method AddMentions(c: Id, users: set<Id>, ids: map<Id, Id>, actor: Id, at: Time,
                       ghost rows: map<Id, Mention>, ghost sent: map<Id, Notice>, ghost gone: set<Id>)
      requires RowsAgree(rows, sent) && users !! ActiveUsers(rows, c) && users !! gone
      requires Assigns(ids, rows, c, users + ActiveUsers(rows, c))
      requires mentions == Synced(rows, ids, c, gone, {}, actor, at)
      requires notices == SyncedNotices(sent, mentions, c, gone, {}, actor)
      modifies this`mentions, this`notices
      ensures mentions == Synced(rows, ids, c, gone, users, actor, at)
      ensures notices == SyncedNotices(sent, mentions, c, gone, users, actor)
    {
      hide MentionSync.Synced, MentionSync.SyncedNotices, MentionSync.Noticed;
      var left := users;
      assert users - left == {};
      while left != {}
        invariant left <= users
        invariant mentions == Synced(rows, ids, c, gone, users - left, actor, at)
        invariant notices == SyncedNotices(sent, mentions, c, gone, users - left, actor)
        decreases left
      {
        var u :| u in left;
        if m :| m in mentions && mentions[m].comment == c && mentions[m].user == u {
          ComesBack(rows, sent, ids, c, u, m, gone, users, users - left, actor, at);
          OneMoreCame(rows, sent, ids, c, gone, users - left, u, m, actor, at);
          mentions := mentions[m := mentions[m].(actor := actor, createdAt := at, readAt := None, deletedAt := None)];
          notices := notices[m := Notice(u, actor, c)];
        } else {
          HasNoRow(rows, ids, c, u, gone, users - left, actor, at);
          var m :| m in ids && ids[m] == u;
          ComesNew(rows, sent, ids, c, u, m, users);
          OneMoreCame(rows, sent, ids, c, gone, users - left, u, m, actor, at);
          mentions := mentions[m := Mention(c, u, actor, at, None, None)];
          notices := notices[m := Notice(u, actor, c)];
        }
        assert users - (left - {u}) == (users - left) + {u};
        left := left - {u};
      }
      assert users - left == users;
    }

    method SyncForComment(c: Id, named: set<Id>, ids: map<Id, Id>, actor: Id, at: Time)
      requires RowsAgree(mentions, notices) && Assigns(ids, mentions, c, named)
      modifies this`mentions, this`notices
      ensures var active := ActiveUsers(old(mentions), c);
        && mentions == Synced(old(mentions), ids, c, active - named, named - active, actor, at)
        && notices == SyncedNotices(old(notices), mentions, c, active - named, named - active, actor)
      ensures RowsAgree(mentions, notices)
      ensures forall m <- mentions :: mentions[m].comment == c || (m in old(mentions) && mentions[m].comment == old(mentions)[m].comment)
      ensures forall d :: ActiveUsers(mentions, d) == if d == c then named else ActiveUsers(old(mentions), d)
      ensures forall m <- old(mentions) :: m in mentions && Reconciled(old(mentions)[m], mentions[m], c, named, actor, at)
      ensures forall m <- mentions :: m !in old(mentions) ==> m in ids && mentions[m] == Mention(c, ids[m], actor, at, None, None)
      ensures Notifies(old(mentions), mentions, old(notices), notices, c, actor)
    {
      hide MentionSync.Synced, MentionSync.SyncedNotices, MentionSync.Noticed, MentionSync.OneRowEach;
      ghost var rows, sent := mentions, notices;
      var active := ActiveUsers(mentions, c);
      AssignsAll(ids, rows, c, named);
      RemoveMentions(c, active - named, ids, actor, at);
      assert (named - active) + active == named + active;
      AddMentions(c, named - active, ids, actor, at, rows, sent, active - named);
      SyncedRowsAgree(rows, sent, ids, c, named, actor, at);
      SyncedComments(rows, ids, c, active - named, named - active, actor, at);
      SyncedReconciles(rows, ids, c, named, actor, at);
      SyncedNotifies(rows, sent, ids, c, named, actor, at);
      forall d ensures ActiveUsers(mentions, d) == if d == c then named else ActiveUsers(rows, d) {
        SyncedActive(rows, ids, c, named, actor, at, d);
      }
    }

    // -------------------------------------------------------------- calls

    /** The loop of `_canonical_structured_body`. */
    method CanonicalBody(content: seq<Node>, names: map<Id, string>) returns (stored: seq<Node>)
      requires Mentioned(content) <= names.Keys
      ensures stored == Canonical(content, names)
    {
      stored := [];
      for i := 0 to |content|
        invariant |stored| == i
        invariant forall k :: 0 <= k < i ==> stored[k] == Canonical(content, names)[k]
      {
        assert content[i] in content;
        match content[i]
        case TextNode(text) => stored := stored + [TextNode(text)];
        case MentionNode(user, _) => stored := stored + [MentionNode(user, names[user])];
      }
    }

    /** `names` are the active members of the workspace among the users named, and `ids` the identifiers drawn for new rows. */
    method Create(c: Id, author: Id, content: seq<Node>, names: map<Id, string>, ids: map<Id, Id>, at: Time) returns (outcome: Outcome)
      requires Valid() && c !in comments && Assigns(ids, mentions, c, Mentioned(content))
      modifies this
      ensures Valid()
      ensures outcome == if Mentioned(content) <= names.Keys then Ok(()) else Refused(MentionMemberInvalid)
      ensures comments == if outcome.Ok? then old(comments)[c := Comment(author, Canonical(content, names), None)] else old(comments)
      ensures outcome.Refused? ==> mentions == old(mentions) && notices == old(notices)
      ensures outcome.Ok? ==> ActiveUsers(mentions, c) == Mentioned(content)
    {
      hide MentionSync.RowsAgree, MentionSync.InStep, MentionSync.Synced, MentionSync.SyncedNotices, MentionSync.Assigns,
           MentionSync.ActiveUsers;
      var named := Mentioned(content);
      if !(named <= names.Keys) { return Refused(MentionMemberInvalid); }
      var stored := CanonicalBody(content, names);
      CanonicalKeepsMentions(content, names);
      comments := comments[c := Comment(author, stored, None)];
      SyncForComment(c, named, ids, author, at);
      EditKeepsInStep(old(comments), old(mentions), mentions, c, comments[c]);
      return Ok(());
    }

    method Update(c: Id, actor: Id, manages: bool, content: seq<Node>, names: map<Id, string>, ids: map<Id, Id>, at: Time)
      returns (outcome: Outcome)
      requires Valid() && Assigns(ids, mentions, c, Mentioned(content))
      modifies this
      ensures Valid()
      ensures outcome ==
        if c !in old(comments) || old(comments)[c].deletedAt.Some? then Refused(CommentNotFound)
        else if old(comments)[c].author != actor && !manages then Refused(AccessDenied)
        else if !(Mentioned(content) <= names.Keys) then Refused(MentionMemberInvalid)
        else Ok(())
      ensures outcome.Refused? ==> comments == old(comments) && mentions == old(mentions) && notices == old(notices)
      ensures outcome.Ok? ==> comments == old(comments)[c := old(comments)[c].(content := Canonical(content, names))]
      ensures outcome.Ok? ==> ActiveUsers(mentions, c) == Mentioned(content)
    {
      hide MentionSync.RowsAgree, MentionSync.InStep, MentionSync.Synced, MentionSync.SyncedNotices, MentionSync.Assigns,
           MentionSync.ActiveUsers;
      if c !in comments || comments[c].deletedAt.Some? { return Refused(CommentNotFound); }
      if comments[c].author != actor && !manages { return Refused(AccessDenied); }
      var named := Mentioned(content);
      if !(named <= names.Keys) { return Refused(MentionMemberInvalid); }
      var stored := CanonicalBody(content, names);
      CanonicalKeepsMentions(content, names);
      comments := comments[c := comments[c].(content := stored)];
      SyncForComment(c, named, ids, comments[c].author, at);
      EditKeepsInStep(old(comments), old(mentions), mentions, c, comments[c]);
      return Ok(());
    }

    method Delete(c: Id, actor: Id, manages: bool, at: Time) returns (outcome: Outcome)
      requires Valid()
      modifies this
      ensures Valid()
      ensures outcome ==
        if c !in old(comments) || old(comments)[c].deletedAt.Some? then Refused(CommentNotFound)
        else if old(comments)[c].author != actor && !manages then Refused(AccessDenied)
        else Ok(())
      ensures outcome.Refused? ==> comments == old(comments) && mentions == old(mentions) && notices == old(notices)
      ensures outcome.Ok? ==> comments == old(comments)[c := old(comments)[c].(deletedAt := Some(at))]
      ensures outcome.Ok? ==> ActiveUsers(mentions, c) == {}
    {
      hide MentionSync.OneRowEach, MentionSync.Noticed, MentionSync.Synced, MentionSync.SyncedNotices, MentionSync.InStep;
      if c !in comments || comments[c].deletedAt.Some? { return Refused(CommentNotFound); }
      if comments[c].author != actor && !manages { return Refused(AccessDenied); }
      ghost var rows, sent := mentions, notices;
      comments := comments[c := comments[c].(deletedAt := Some(at))];
      var active := ActiveUsers(mentions, c);
      RemoveMentions(c, active, map[], actor, at);
      assert active - {} == active && {} - active == {};
      SyncedRowsAgree(rows, sent, map[], c, {}, actor, at);
      forall d ensures ActiveUsers(mentions, d) == if d == c then {} else ActiveUsers(rows, d) {
        SyncedActive(rows, map[], c, {}, actor, at, d);
      }
      SyncedComments(rows, map[], c, active, {}, actor, at);
      EditKeepsInStep(old(comments), rows, mentions, c, comments[c]);
      return Ok(());
    }
  }

  /** Editing one comment and its own rows keeps every comment in step. */
  lemma EditKeepsInStep(comments: map<Id, Comment>, mentions: map<Id, Mention>, after: map<Id, Mention>, c: Id, comment: Comment)
    requires InStep(comments, mentions)
    requires forall m <- after :: after[m].comment == c || (m in mentions && after[m].comment == mentions[m].comment)
    requires forall d :: ActiveUsers(after, d) == if d == c then NamedUsers(comment) else ActiveUsers(mentions, d)
    ensures InStep(comments[c := comment], after)
  {
  }

  // ---------------------------------------------------------------- lemmas of the loops

  lemma RowOfActive(rows: map<Id, Mention>, ids: map<Id, Id>, c: Id, u: Id, gone: set<Id>, actor: Id, at: Time)
    requires u in ActiveUsers(rows, c)
    ensures HasRow(Synced(rows, ids, c, gone, {}, actor, at), c, u)
  {
    var m :| m in rows && rows[m].comment == c && rows[m].deletedAt.None? && rows[m].user == u;
    assert m in Synced(rows, ids, c, gone, {}, actor, at);
  }

  lemma SyncedRowIsOld(rows: map<Id, Mention>, ids: map<Id, Id>, c: Id, u: Id, m: Id, gone: set<Id>, actor: Id, at: Time)
    requires OneRowEach(rows)
    requires var synced := Synced(rows, ids, c, gone, {}, actor, at);
      m in synced && synced[m].comment == c && synced[m].user == u
    ensures m in rows && OnlyRow(rows, c, u, m)
  {
  }

  lemma ComesBack(rows: map<Id, Mention>, sent: map<Id, Notice>, ids: map<Id, Id>, c: Id, u: Id, m: Id,
                  gone: set<Id>, users: set<Id>, came: set<Id>, actor: Id, at: Time)
    requires RowsAgree(rows, sent) && users !! ActiveUsers(rows, c) && u in users && u !in came
    requires Assigns(ids, rows, c, users + ActiveUsers(rows, c))
    requires var synced := Synced(rows, ids, c, gone, came, actor, at);
      m in synced && synced[m].comment == c && synced[m].user == u
    ensures ComesAs(rows, ids, c, u, m) && m in rows && m !in sent
  {
    assert m in rows && rows[m].comment == c && rows[m].user == u;
    assert HasRow(rows, c, u);
    assert rows[m].deletedAt.None? ==> u in ActiveUsers(rows, c);
  }

  lemma HasNoRow(rows: map<Id, Mention>, ids: map<Id, Id>, c: Id, u: Id, gone: set<Id>, came: set<Id>, actor: Id, at: Time)
    requires forall k <- ids :: k !in rows
    requires !HasRow(Synced(rows, ids, c, gone, came, actor, at), c, u)
    ensures !HasRow(rows, c, u)
  {
    var synced := Synced(rows, ids, c, gone, came, actor, at);
    assert forall m <- rows :: m in synced && synced[m].comment == rows[m].comment && synced[m].user == rows[m].user;
  }

  lemma ComesNew(rows: map<Id, Mention>, sent: map<Id, Notice>, ids: map<Id, Id>, c: Id, u: Id, m: Id, users: set<Id>)
    requires RowsAgree(rows, sent) && Assigns(ids, rows, c, users + ActiveUsers(rows, c))
    requires m in ids && ids[m] == u && !HasRow(rows, c, u)
    ensures ComesAs(rows, ids, c, u, m) && m !in rows && m !in sent
  {
    assert forall k <- rows :: !(rows[k].comment == c && rows[k].user == u);
  }

  lemma AssignsAll(ids: map<Id, Id>, rows: map<Id, Mention>, c: Id, named: set<Id>)
    requires Assigns(ids, rows, c, named)
    ensures Assigns(ids, rows, c, named + ActiveUsers(rows, c))
  {
    forall u | u in ActiveUsers(rows, c) ensures HasRow(rows, c, u) {
      var m :| m in rows && rows[m].comment == c && rows[m].deletedAt.None? && rows[m].user == u;
    }
  }

  /** A synchronisation adds rows to its own comment only. */
  lemma SyncedComments(rows: map<Id, Mention>, ids: map<Id, Id>, c: Id, gone: set<Id>, came: set<Id>, actor: Id, at: Time)
    ensures forall m <- Synced(rows, ids, c, gone, came, actor, at) ::
      Synced(rows, ids, c, gone, came, actor, at)[m].comment == c
      || (m in rows && Synced(rows, ids, c, gone, came, actor, at)[m].comment == rows[m].comment)
  {
  }
}
