/** Comments, and the mention and notification rows that every edit keeps in step with them. */
module MentionSync {
  import opened Options

  type Id = nat
  type Time = nat

  /** A node of a structured comment body. */
  datatype Node = TextNode(text: string) | MentionNode(user: Id, name: string)

  datatype Comment = Comment(author: Id, content: seq<Node>, deletedAt: Option<Time>)

  datatype Mention = Mention(
    comment: Id, user: Id, actor: Id, createdAt: Time, readAt: Option<Time>, deletedAt: Option<Time>)

  /** The notification of a mention; the table holds one for each idempotency key, which is the mention's identifier. */
  datatype Notice = Notice(recipient: Id, actor: Id, comment: Id)

  datatype Error = CommentNotFound | AccessDenied | MentionMemberInvalid

  /** `_mentioned_user_ids`. */
  function Mentioned(content: seq<Node>): set<Id> {
    set n <- content | n.MentionNode? :: n.user
  }

  /** `_canonical_structured_body`, node by node. */
  function Canonical(content: seq<Node>, names: map<Id, string>): seq<Node>
    requires Mentioned(content) <= names.Keys
  {
    seq(|content|, i requires 0 <= i < |content| =>
      assert content[i] in content;
      match content[i]
      case TextNode(text) => TextNode(text)
      case MentionNode(user, _) => MentionNode(user, names[user]))
  }

  /** The stored body names the users that the submitted one named, each with the name on record. */
  lemma CanonicalKeepsMentions(content: seq<Node>, names: map<Id, string>)
    requires Mentioned(content) <= names.Keys
    ensures Mentioned(Canonical(content, names)) == Mentioned(content)
    ensures forall n <- Canonical(content, names) :: n.MentionNode? ==> n.user in names && n.name == names[n.user]
    ensures |Canonical(content, names)| == |content|
    ensures forall i :: 0 <= i < |content| ==>
              match content[i]
              case TextNode(_) => Canonical(content, names)[i] == content[i]
              case MentionNode(user, _) => Canonical(content, names)[i].MentionNode? && Canonical(content, names)[i].user == user
  {
    var stored := Canonical(content, names);
    forall u ensures u in Mentioned(stored) <==> u in Mentioned(content) {
      if u in Mentioned(stored) {
        var n :| n in stored && n.MentionNode? && n.user == u;
        var i :| 0 <= i < |stored| && stored[i] == n;
        assert content[i] in content;
      }
      if u in Mentioned(content) {
        var n :| n in content && n.MentionNode? && n.user == u;
        var i :| 0 <= i < |content| && content[i] == n;
        assert stored[i] in stored;
      }
    }
  }

  // ---------------------------------------------------------------- what holds between calls

  /** The users that comment `c` mentions, by its live rows. */
  function ActiveUsers(mentions: map<Id, Mention>, c: Id): set<Id> {
    set m <- mentions | mentions[m].comment == c && mentions[m].deletedAt.None? :: mentions[m].user
  }

  /** The users that comment `c` should mention: those its body names, none once it is deleted. */
  function NamedUsers(comment: Comment): set<Id> {
    if comment.deletedAt.Some? then {} else Mentioned(comment.content)
  }

  ghost predicate OneRowEach(mentions: map<Id, Mention>) {
    forall m <- mentions, k <- mentions ::
      mentions[m].comment == mentions[k].comment && mentions[m].user == mentions[k].user ==> m == k
  }

  /** A live mention has its notification, a removed one has none. */
  ghost predicate Noticed(mentions: map<Id, Mention>, notices: map<Id, Notice>) {
    && (forall m <- mentions :: mentions[m].deletedAt.None? <==> m in notices)
    && (forall m <- notices :: m in mentions && notices[m].recipient == mentions[m].user && notices[m].comment == mentions[m].comment)
  }

  ghost predicate InStep(comments: map<Id, Comment>, mentions: map<Id, Mention>) {
    && (forall m <- mentions :: mentions[m].comment in comments)
    && (forall c <- comments :: ActiveUsers(mentions, c) == NamedUsers(comments[c]))
  }

  /** A node of the body names the user. */
  ghost predicate Names(content: seq<Node>, user: Id) {
    exists i :: 0 <= i < |content| && content[i].MentionNode? && content[i].user == user
  }

  /** A row shows user `user` as mentioned in comment `c`, and has not been removed. */
  ghost predicate IsMentioned(mentions: map<Id, Mention>, c: Id, user: Id) {
    exists m <- mentions :: mentions[m].comment == c && mentions[m].user == user && mentions[m].deletedAt == None
  }

  /**
    Between calls a user is mentioned in a comment exactly when the comment is not deleted and its stored body names the
    user; and a live row, and no other, has one notification, for its user about its comment.
   */
  lemma MentionsAreNamed(comments: map<Id, Comment>, mentions: map<Id, Mention>, notices: map<Id, Notice>, c: Id, user: Id)
    requires InStep(comments, mentions) && Noticed(mentions, notices) && c in comments
    ensures IsMentioned(mentions, c, user) <==> comments[c].deletedAt == None && Names(comments[c].content, user)
    ensures forall m <- mentions :: mentions[m].comment == c && mentions[m].user == user ==>
              && (mentions[m].deletedAt == None <==> m in notices)
              && (m in notices ==> notices[m].recipient == user && notices[m].comment == c)
  {
    assert IsMentioned(mentions, c, user) <==> user in ActiveUsers(mentions, c);
    MentionedAreNamed(comments[c].content, user);
  }

  lemma MentionedAreNamed(content: seq<Node>, user: Id)
    ensures user in Mentioned(content) <==> Names(content, user)
  {
    if user in Mentioned(content) {
      var n :| n in content && n.MentionNode? && n.user == user;
      var i :| 0 <= i < |content| && content[i] == n;
    }
    if i :| 0 <= i < |content| && content[i].MentionNode? && content[i].user == user {
      assert content[i] in content;
    }
  }

  // ---------------------------------------------------------------- one synchronisation

  predicate HasRow(mentions: map<Id, Mention>, c: Id, user: Id) {
    exists m <- mentions :: mentions[m].comment == c && mentions[m].user == user
  }

  /** New rows get new identifiers, one for each named user without a row. */
  ghost predicate Assigns(ids: map<Id, Id>, mentions: map<Id, Mention>, c: Id, named: set<Id>) {
    && (forall m <- ids :: m !in mentions && ids[m] in named && !HasRow(mentions, c, ids[m]))
    && (forall m <- ids, k <- ids :: ids[m] == ids[k] ==> m == k)
    && (forall u <- named :: HasRow(mentions, c, u) || exists m <- ids :: ids[m] == u)
  }

  /** A row after the users in `gone` were removed from comment `c` and those in `came` mentioned. */
  function Touched(row: Mention, c: Id, gone: set<Id>, came: set<Id>, actor: Id, at: Time): Mention {
    if row.comment != c then row
    else if row.user in gone then row.(deletedAt := Some(at), readAt := Some(at))
    else if row.user in came then row.(actor := actor, createdAt := at, readAt := None, deletedAt := None)
    else row
  }

  function Synced(mentions: map<Id, Mention>, ids: map<Id, Id>, c: Id, gone: set<Id>, came: set<Id>, actor: Id, at: Time)
    : map<Id, Mention>
  {
    (map m <- mentions :: Touched(mentions[m], c, gone, came, actor, at))
    + (map m <- ids | ids[m] in came :: Mention(c, ids[m], actor, at, None, None))
  }

  /** The notifications: those of removed rows are gone, those of rows that came are new. */
  function SyncedNotices(notices: map<Id, Notice>, rows: map<Id, Mention>, c: Id, gone: set<Id>, came: set<Id>, actor: Id): map<Id, Notice> {
    map m <- rows | (rows[m].comment == c && rows[m].user in came)
                    || (m in notices && !(rows[m].comment == c && rows[m].user in gone))
      :: if rows[m].comment == c && rows[m].user in came then Notice(rows[m].user, actor, c) else notices[m]
  }

  ghost predicate RowsAgree(mentions: map<Id, Mention>, notices: map<Id, Notice>) {
    OneRowEach(mentions) && Noticed(mentions, notices)
  }

  /** Removing nobody and adding nobody changes nothing. */
  lemma NobodyTouched(mentions: map<Id, Mention>, notices: map<Id, Notice>, ids: map<Id, Id>, c: Id, actor: Id, at: Time)
    requires Noticed(mentions, notices)
    ensures Synced(mentions, ids, c, {}, {}, actor, at) == mentions
    ensures SyncedNotices(notices, mentions, c, {}, {}, actor) == notices
  {
  }

  /** Row `m` is the only one of user `u` in comment `c`. */
  ghost predicate OnlyRow(rows: map<Id, Mention>, c: Id, u: Id, m: Id) {
    forall k <- rows :: rows[k].comment == c && rows[k].user == u <==> k == m
  }

  /** The rows of `a` are in `b`, for the same comments and users. */
  ghost predicate SameTargets(a: map<Id, Mention>, b: map<Id, Mention>) {
    forall k <- a :: k in b && b[k].comment == a[k].comment && b[k].user == a[k].user
  }

  lemma NoticesWithout(notices: map<Id, Notice>, a: map<Id, Mention>, b: map<Id, Mention>, c: Id, gone: set<Id>, u: Id, m: Id, actor: Id)
    requires SameTargets(a, b) && b.Keys == a.Keys && m in a && OnlyRow(a, c, u, m)
    ensures SyncedNotices(notices, b, c, gone + {u}, {}, actor) == SyncedNotices(notices, a, c, gone, {}, actor) - {m}
  {
  }

  lemma NoticesWith(notices: map<Id, Notice>, a: map<Id, Mention>, b: map<Id, Mention>, c: Id, gone: set<Id>, came: set<Id>, u: Id, m: Id, actor: Id)
    requires SameTargets(a, b) && b.Keys == a.Keys + {m} && OnlyRow(b, c, u, m) && u !in gone && u !in came && m !in notices
    ensures m !in SyncedNotices(notices, a, c, gone, came, actor)
    ensures SyncedNotices(notices, b, c, gone, came + {u}, actor) == SyncedNotices(notices, a, c, gone, came, actor)[m := Notice(u, actor, c)]
  {
  }

  lemma RowsKeepTargets(mentions: map<Id, Mention>, ids: map<Id, Id>, c: Id, gone: set<Id>, came: set<Id>, actor: Id, at: Time)
    requires forall k <- ids :: k !in mentions
    ensures SameTargets(mentions, Synced(mentions, ids, c, gone, came, actor, at))
  {
  }

  /** Removing one more user: row `m` is stamped and its notification deleted. */
  lemma OneMoreGone(mentions: map<Id, Mention>, notices: map<Id, Notice>, ids: map<Id, Id>, c: Id, gone: set<Id>, u: Id, m: Id,
                    actor: Id, at: Time)
    requires OnlyRow(mentions, c, u, m) && m in mentions && u !in gone
    ensures var before := Synced(mentions, ids, c, gone, {}, actor, at); var after := Synced(mentions, ids, c, gone + {u}, {}, actor, at);
      && m in before && after == before[m := before[m].(deletedAt := Some(at), readAt := Some(at))]
      && SyncedNotices(notices, after, c, gone + {u}, {}, actor) == SyncedNotices(notices, before, c, gone, {}, actor) - {m}
  {
    hide SyncedNotices;
    var before, after := Synced(mentions, ids, c, gone, {}, actor, at), Synced(mentions, ids, c, gone + {u}, {}, actor, at);
    assert before.Keys == mentions.Keys == after.Keys;
    forall k | k in before ensures after[k] == if k == m then before[m].(deletedAt := Some(at), readAt := Some(at)) else before[k] {
    }
    NoticesWithout(notices, before, after, c, gone, u, m, actor);
  }

  lemma OneRowBack(mentions: map<Id, Mention>, ids: map<Id, Id>, c: Id, gone: set<Id>, came: set<Id>, u: Id, m: Id, actor: Id, at: Time)
    requires u !in gone && u !in came && (forall k <- ids :: k !in mentions && ids[k] != u)
    requires m in mentions && OnlyRow(mentions, c, u, m)
    ensures var before := Synced(mentions, ids, c, gone, came, actor, at); var after := Synced(mentions, ids, c, gone, came + {u}, actor, at);
      m in before && after == before[m := before[m].(actor := actor, createdAt := at, readAt := None, deletedAt := None)]
  {
    var before, after := Synced(mentions, ids, c, gone, came, actor, at), Synced(mentions, ids, c, gone, came + {u}, actor, at);
    assert after.Keys == before.Keys;
    forall k | k in after && k != m ensures after[k] == before[k] {
    }
  }

  lemma OneRowNew(mentions: map<Id, Mention>, ids: map<Id, Id>, c: Id, gone: set<Id>, came: set<Id>, u: Id, m: Id, actor: Id, at: Time)
    requires u !in gone && u !in came && (forall k <- ids :: k !in mentions && (ids[k] == u <==> k == m))
    requires m !in mentions && m in ids && forall k <- mentions :: !(mentions[k].comment == c && mentions[k].user == u)
    ensures var before := Synced(mentions, ids, c, gone, came, actor, at); var after := Synced(mentions, ids, c, gone, came + {u}, actor, at);
      m !in before && after == before[m := Mention(c, u, actor, at, None, None)]
  {
    var before, after := Synced(mentions, ids, c, gone, came, actor, at), Synced(mentions, ids, c, gone, came + {u}, actor, at);
    assert after.Keys == before.Keys + {m};
    forall k | k in before ensures after[k] == before[k] {
    }
  }

  /** The identifier under which user `u` comes into comment `c`: the row there is, or a new one. */
  ghost predicate ComesAs(mentions: map<Id, Mention>, ids: map<Id, Id>, c: Id, u: Id, m: Id) {
    && (forall k <- ids :: k !in mentions)
    && if m in mentions then OnlyRow(mentions, c, u, m) && forall k <- ids :: ids[k] != u
       else m in ids && (forall k <- ids :: ids[k] == u <==> k == m)
            && forall k <- mentions :: !(mentions[k].comment == c && mentions[k].user == u)
  }

  lemma ComesAsOnlyRow(mentions: map<Id, Mention>, ids: map<Id, Id>, c: Id, gone: set<Id>, came: set<Id>, u: Id, m: Id, actor: Id, at: Time)
    requires ComesAs(mentions, ids, c, u, m)
    ensures OnlyRow(Synced(mentions, ids, c, gone, came + {u}, actor, at), c, u, m)
    ensures m in Synced(mentions, ids, c, gone, came, actor, at) <==> (m in mentions || u in came)
  {
  }

  /** One more user comes, with the row that is revived or added under `m`. */
  lemma OneMoreCame(mentions: map<Id, Mention>, notices: map<Id, Notice>, ids: map<Id, Id>, c: Id, gone: set<Id>, came: set<Id>,
                    u: Id, m: Id, actor: Id, at: Time)
    requires u !in gone && u !in came && m !in notices && ComesAs(mentions, ids, c, u, m)
    ensures var before := Synced(mentions, ids, c, gone, came, actor, at); var after := Synced(mentions, ids, c, gone, came + {u}, actor, at);
      && (m in before <==> m in mentions)
      && after == before[m := if m in mentions then before[m].(actor := actor, createdAt := at, readAt := None, deletedAt := None)
                              else Mention(c, u, actor, at, None, None)]
      && m !in SyncedNotices(notices, before, c, gone, came, actor)
      && SyncedNotices(notices, after, c, gone, came + {u}, actor)
           == SyncedNotices(notices, before, c, gone, came, actor)[m := Notice(u, actor, c)]
  {
    hide SyncedNotices, Synced, OnlyRow;
    var before, after := Synced(mentions, ids, c, gone, came, actor, at), Synced(mentions, ids, c, gone, came + {u}, actor, at);
    if m in mentions {
      OneRowBack(mentions, ids, c, gone, came, u, m, actor, at);
    } else {
      OneRowNew(mentions, ids, c, gone, came, u, m, actor, at);
    }
    ComesAsOnlyRow(mentions, ids, c, gone, came, u, m, actor, at);
    RevivedTarget(mentions, ids, c, gone, came, u, m, actor, at);
    NoticesWith(notices, before, after, c, gone, came, u, m, actor);
  }

  lemma RevivedTarget(mentions: map<Id, Mention>, ids: map<Id, Id>, c: Id, gone: set<Id>, came: set<Id>, u: Id, m: Id, actor: Id, at: Time)
    requires ComesAs(mentions, ids, c, u, m)
    ensures SameTargets(Synced(mentions, ids, c, gone, came, actor, at), Synced(mentions, ids, c, gone, came + {u}, actor, at))
  {
  }

  // ---------------------------------------------------------------- what a synchronisation achieves

  lemma SyncedOneRowEach(mentions: map<Id, Mention>, ids: map<Id, Id>, c: Id, named: set<Id>, gone: set<Id>, came: set<Id>, actor: Id, at: Time)
    requires OneRowEach(mentions) && Assigns(ids, mentions, c, named)
    ensures OneRowEach(Synced(mentions, ids, c, gone, came, actor, at))
  {
    var rows := Synced(mentions, ids, c, gone, came, actor, at);
    RowsKeepTargets(mentions, ids, c, gone, came, actor, at);
    assert forall k <- ids, m <- mentions :: mentions[m].comment == c ==> mentions[m].user != ids[k];
  }

  lemma ActiveByRow(mentions: map<Id, Mention>, c: Id, m: Id)
    requires OneRowEach(mentions) && m in mentions && mentions[m].comment == c
    ensures mentions[m].deletedAt.None? <==> mentions[m].user in ActiveUsers(mentions, c)
  {
  }

  lemma SyncedNoticed(mentions: map<Id, Mention>, notices: map<Id, Notice>, ids: map<Id, Id>, c: Id, named: set<Id>, actor: Id, at: Time)
    requires RowsAgree(mentions, notices) && forall k <- ids :: k !in mentions
    ensures var active := ActiveUsers(mentions, c);
      var rows := Synced(mentions, ids, c, active - named, named - active, actor, at);
      Noticed(rows, SyncedNotices(notices, rows, c, active - named, named - active, actor))
  {
    hide ActiveUsers;
    var active := ActiveUsers(mentions, c);
    var gone, came := active - named, named - active;
    var rows := Synced(mentions, ids, c, gone, came, actor, at);
    var after := SyncedNotices(notices, rows, c, gone, came, actor);
    forall m | m in rows ensures rows[m].deletedAt.None? <==> m in after {
      if m in mentions && mentions[m].comment == c {
        ActiveByRow(mentions, c, m);
      }
    }
    RowsKeepTargets(mentions, ids, c, gone, came, actor, at);
  }

  lemma SyncedRowsAgree(mentions: map<Id, Mention>, notices: map<Id, Notice>, ids: map<Id, Id>, c: Id, named: set<Id>, actor: Id, at: Time)
    requires RowsAgree(mentions, notices) && Assigns(ids, mentions, c, named)
    ensures var active := ActiveUsers(mentions, c);
      var rows := Synced(mentions, ids, c, active - named, named - active, actor, at);
      RowsAgree(rows, SyncedNotices(notices, rows, c, active - named, named - active, actor))
  {
    hide ActiveUsers, Synced, SyncedNotices, OneRowEach, Noticed;
    var active := ActiveUsers(mentions, c);
    SyncedOneRowEach(mentions, ids, c, named, active - named, named - active, actor, at);
    SyncedNoticed(mentions, notices, ids, c, named, actor, at);
  }

  /** Afterwards the live rows of the comment are exactly those of the named users; other comments are as they were. */
  lemma SyncedActive(mentions: map<Id, Mention>, ids: map<Id, Id>, c: Id, named: set<Id>, actor: Id, at: Time, d: Id)
    requires OneRowEach(mentions) && Assigns(ids, mentions, c, named)
    ensures var active := ActiveUsers(mentions, c);
      ActiveUsers(Synced(mentions, ids, c, active - named, named - active, actor, at), d)
        == if d == c then named else ActiveUsers(mentions, d)
  {
    var active := ActiveUsers(mentions, c);
    var rows := Synced(mentions, ids, c, active - named, named - active, actor, at);
    if d == c {
      forall u ensures u in ActiveUsers(rows, c) <==> u in named {
        if u in ActiveUsers(rows, c) {
          ActiveIsNamed(mentions, ids, c, named, actor, at, u);
        }
        if u in named {
          NamedIsActive(mentions, ids, c, named, actor, at, u);
        }
      }
    } else {
      forall u ensures u in ActiveUsers(rows, d) <==> u in ActiveUsers(mentions, d) {
        if u in ActiveUsers(mentions, d) {
          var m :| m in mentions && mentions[m].comment == d && mentions[m].deletedAt.None? && mentions[m].user == u;
          assert m in rows && rows[m] == mentions[m];
        }
        if u in ActiveUsers(rows, d) {
          var m :| m in rows && rows[m].comment == d && rows[m].deletedAt.None? && rows[m].user == u;
          assert m in mentions && rows[m] == mentions[m];
        }
      }
    }
  }

  lemma ActiveIsNamed(mentions: map<Id, Mention>, ids: map<Id, Id>, c: Id, named: set<Id>, actor: Id, at: Time, u: Id)
    requires Assigns(ids, mentions, c, named)
    requires var active := ActiveUsers(mentions, c);
      u in ActiveUsers(Synced(mentions, ids, c, active - named, named - active, actor, at), c)
    ensures u in named
  {
    var active := ActiveUsers(mentions, c);
    var rows := Synced(mentions, ids, c, active - named, named - active, actor, at);
    var m :| m in rows && rows[m].comment == c && rows[m].deletedAt.None? && rows[m].user == u;
    if m in mentions && mentions[m].deletedAt.None? {
      assert u in active;
    }
  }

  lemma NamedIsActive(mentions: map<Id, Mention>, ids: map<Id, Id>, c: Id, named: set<Id>, actor: Id, at: Time, u: Id)
    requires Assigns(ids, mentions, c, named) && u in named
    ensures var active := ActiveUsers(mentions, c);
      u in ActiveUsers(Synced(mentions, ids, c, active - named, named - active, actor, at), c)
  {
    var active := ActiveUsers(mentions, c);
    var rows := Synced(mentions, ids, c, active - named, named - active, actor, at);
    if u in active {
      var m :| m in mentions && mentions[m].comment == c && mentions[m].deletedAt.None? && mentions[m].user == u;
      assert m in rows && rows[m] == mentions[m];
    } else if HasRow(mentions, c, u) {
      var m :| m in mentions && mentions[m].comment == c && mentions[m].user == u;
      assert m in rows && rows[m].deletedAt.None? && rows[m].user == u && rows[m].comment == c;
    } else {
      var m :| m in ids && ids[m] == u;
      assert m in rows && rows[m] == Mention(c, u, actor, at, None, None);
    }
  }

  /** What a synchronisation of comment `c` with the named users makes of a row. */
  ghost predicate Reconciled(a: Mention, b: Mention, c: Id, named: set<Id>, actor: Id, at: Time) {
    if a.comment != c then b == a
    else if a.user in named then
      if a.deletedAt == None then b == a else b == Mention(c, a.user, actor, at, None, None)
    else
      if a.deletedAt == None then b == Mention(c, a.user, a.actor, a.createdAt, Some(at), Some(at)) else b == a
  }

  /** Who came is notified by the actor; every other live mention keeps the notification it had. */
  ghost predicate Notifies(mentions: map<Id, Mention>, rows: map<Id, Mention>, before: map<Id, Notice>, after: map<Id, Notice>,
                           c: Id, actor: Id)
  {
    && (forall m <- after :: m in rows)
    && forall m <- after ::
         if m in mentions && (mentions[m].comment != c || mentions[m].deletedAt == None) then m in before && after[m] == before[m]
         else after[m] == Notice(rows[m].user, actor, c)
  }

  lemma NoticeAfter(notices: map<Id, Notice>, rows: map<Id, Mention>, c: Id, gone: set<Id>, came: set<Id>, actor: Id, m: Id)
    requires m in SyncedNotices(notices, rows, c, gone, came, actor)
    ensures m in rows
    ensures if rows[m].comment == c && rows[m].user in came
            then SyncedNotices(notices, rows, c, gone, came, actor)[m] == Notice(rows[m].user, actor, c)
            else m in notices && SyncedNotices(notices, rows, c, gone, came, actor)[m] == notices[m]
  {
  }

  lemma NoticesAreOfLive(mentions: map<Id, Mention>, notices: map<Id, Notice>, m: Id)
    requires Noticed(mentions, notices) && m in notices
    ensures m in mentions && mentions[m].deletedAt.None?
  {
  }

  lemma SyncedNotifies(mentions: map<Id, Mention>, notices: map<Id, Notice>, ids: map<Id, Id>, c: Id, named: set<Id>, actor: Id, at: Time)
    requires RowsAgree(mentions, notices) && forall k <- ids :: k !in mentions
    ensures var active := ActiveUsers(mentions, c);
      var rows := Synced(mentions, ids, c, active - named, named - active, actor, at);
      Notifies(mentions, rows, notices, SyncedNotices(notices, rows, c, active - named, named - active, actor), c, actor)
  {
    hide ActiveUsers, Synced, SyncedNotices, OneRowEach, Noticed;
    var active := ActiveUsers(mentions, c);
    var gone, came := active - named, named - active;
    var rows := Synced(mentions, ids, c, gone, came, actor, at);
    var after := SyncedNotices(notices, rows, c, gone, came, actor);
    RowsKeepTargets(mentions, ids, c, gone, came, actor, at);
    forall m | m in after
      ensures m in rows
      ensures if m in mentions && (mentions[m].comment != c || mentions[m].deletedAt == None) then m in notices && after[m] == notices[m]
              else after[m] == Notice(rows[m].user, actor, c)
    {
      NoticeAfter(notices, rows, c, gone, came, actor, m);
      if m in notices {
        NoticesAreOfLive(mentions, notices, m);
      }
      if m in mentions && mentions[m].comment == c {
        ActiveByRow(mentions, c, m);
      }
    }
  }

  /**
    Row by row: mentions that stay are left alone with their read mark, dropped ones are stamped, named again they come
    back as new, and only named users without a row get one.
   */
  lemma SyncedReconciles(mentions: map<Id, Mention>, ids: map<Id, Id>, c: Id, named: set<Id>, actor: Id, at: Time)
    requires OneRowEach(mentions) && Assigns(ids, mentions, c, named)
    ensures var active := ActiveUsers(mentions, c);
      var rows := Synced(mentions, ids, c, active - named, named - active, actor, at);
      && (forall m <- mentions :: m in rows && Reconciled(mentions[m], rows[m], c, named, actor, at))
      && (forall m <- rows :: m !in mentions ==> m in ids && ids[m] in named && rows[m] == Mention(c, ids[m], actor, at, None, None))
  {
    hide ActiveUsers;
    forall m | m in mentions && mentions[m].comment == c
      ensures mentions[m].deletedAt.None? <==> mentions[m].user in ActiveUsers(mentions, c)
    {
      ActiveByRow(mentions, c, m);
    }
  }
}
