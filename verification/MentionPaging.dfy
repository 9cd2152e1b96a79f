/** The mention inbox: pages by `(created_at, id)` cursor against the simple sorted list. */
module MentionPaging {
  import opened Options
  import opened Ordering

  datatype Mention = Mention(
    workspace: nat, comment: nat, user: nat, createdAt: nat, readAt: Option<nat>, deletedAt: Option<nat>)

  /** `deletedComments` are the soft-deleted ones. */
  datatype Inbox = Inbox(mentions: map<nat, Mention>, deletedComments: set<nat>)

  datatype Page = Page(items: seq<Stamp>, next: Option<Stamp>)

  /** The rows that the filters select, without the cursor. */
  function Visible(inbox: Inbox, workspace: nat, user: nat, unreadOnly: bool): set<Stamp> {
    set m <- inbox.mentions |
      && inbox.mentions[m].workspace == workspace && inbox.mentions[m].user == user
      && inbox.mentions[m].deletedAt.None? && inbox.mentions[m].comment !in inbox.deletedComments
      && (unreadOnly ==> inbox.mentions[m].readAt.None?)
      :: Stamp(inbox.mentions[m].createdAt, m)
  }

  /** The rows that the cursor leaves: those that sort after it. */
  function After(rows: set<Stamp>, cursor: Option<Stamp>): set<Stamp> {
    set x <- rows | cursor.None? || Older(x, cursor.value)
  }

  /** `list_for_user`: one row more than the limit is fetched, to see whether there are more. */
  function ListForUser(rows: set<Stamp>, limit: nat, cursor: Option<Stamp>): (r: (seq<Stamp>, bool)) {
    var sorted := Descending(After(rows, cursor));
    var fetched := if |sorted| > limit + 1 then sorted[..limit + 1] else sorted;
    (if |fetched| > limit then fetched[..limit] else fetched, |fetched| > limit)
  }

  /** `list_mentions`: the next cursor is the last row of a page that has more behind it. */
  function ListMentions(rows: set<Stamp>, limit: nat, cursor: Option<Stamp>): Page {
    var (items, hasMore) := ListForUser(rows, limit, cursor);
    Page(items, if hasMore && items != [] then Some(items[|items| - 1]) else None)
  }

  // ---------------------------------------------------------------- one page

  lemma DropLists(list: seq<Stamp>, rows: set<Stamp>, k: nat)
    requires Lists(list, rows) && StrictlyDescending(list) && 1 <= k <= |list|
    ensures Lists(list[k..], After(rows, Some(list[k - 1]))) && StrictlyDescending(list[k..])
  {
    var rest := After(rows, Some(list[k - 1]));
    forall x ensures x in list[k..] <==> x in rest {
      if x in list[k..] {
        var i :| k <= i < |list| && list[i] == x;
        assert Older(list[i], list[k - 1]) && x in list;
      }
      if x in rest {
        assert x in list;
        var i :| 0 <= i < |list| && list[i] == x;
        assert i <= k - 1 ==> i == k - 1 || Older(list[k - 1], list[i]);
        assert list[k..][i - k] == x;
      }
    }
    DistinctCount(list[k..], rest);
  }

  /** A strictly descending list of a set is as long as the set is large. */
  lemma {:induction false} DistinctCount(list: seq<Stamp>, rows: set<Stamp>)
    requires StrictlyDescending(list) && forall x :: x in list <==> x in rows
    ensures |list| == |rows|
  {
    if list == [] {
      assert rows == {};
    } else {
      assert list[0] in list;
      forall x ensures x in list[1..] <==> x in rows - {list[0]} {
        if x in list[1..] {
          var i :| 1 <= i < |list| && list[i] == x;
          assert Older(list[i], list[0]) && x in list;
        }
        if x in rows - {list[0]} {
          assert x in list;
        }
      }
      DistinctCount(list[1..], rows - {list[0]});
    }
  }

  /** What the cursor of row k - 1 leaves is the sorted list from row k on. */
  lemma CursorDrops(rows: set<Stamp>, k: nat)
    requires 1 <= k <= |Descending(rows)|
    ensures Descending(After(rows, Some(Descending(rows)[k - 1]))) == Descending(rows)[k..]
  {
    DropLists(Descending(rows), rows, k);
    DescendingIsUnique(Descending(rows)[k..], After(rows, Some(Descending(rows)[k - 1])));
  }

  lemma NoCursorKeepsAll(rows: set<Stamp>)
    ensures After(rows, None) == rows
  {
  }

  /** A cursor among the rows that an older cursor left is the stronger of the two. */
  lemma CursorsCompose(rows: set<Stamp>, cursor: Option<Stamp>, next: Stamp)
    requires next in After(rows, cursor)
    ensures After(After(rows, cursor), Some(next)) == After(rows, Some(next))
  {
  }

  // ---------------------------------------------------------------- following the cursor

  /** How many rows are left. */
  function Left(rows: set<Stamp>, cursor: Option<Stamp>): nat {
    |After(rows, cursor)|
  }

  /** A page has a next cursor exactly when more than `limit` rows are left; it shows the first of them. */
  lemma PageIsPrefix(rows: set<Stamp>, limit: nat, cursor: Option<Stamp>)
    requires limit >= 1
    ensures var page := ListMentions(rows, limit, cursor); var sorted := Descending(After(rows, cursor));
      && |sorted| == Left(rows, cursor)
      && page == (if |sorted| > limit then Page(sorted[..limit], Some(sorted[limit - 1])) else Page(sorted, None))
  {
    hide Ordering.Descending, After, Ordering.StrictlyDescending;
    var sorted := Descending(After(rows, cursor));
    if |sorted| > limit {
      assert sorted[..limit + 1][..limit] == sorted[..limit];
    }
  }

  lemma NextLeavesLess(rows: set<Stamp>, limit: nat, cursor: Option<Stamp>)
    requires limit >= 1 && ListMentions(rows, limit, cursor).next.Some?
    ensures var page := ListMentions(rows, limit, cursor); var sorted := Descending(After(rows, cursor));
      && |sorted| > limit && page.items == sorted[..limit]
      && Descending(After(rows, page.next)) == sorted[limit..]
      && Left(rows, page.next) == Left(rows, cursor) - limit > 0
  {
    hide Ordering.Descending, After, Ordering.StrictlyDescending, ListMentions;
    var left := After(rows, cursor);
    var sorted := Descending(left);
    PageIsPrefix(rows, limit, cursor);
    CursorDrops(left, limit);
    assert sorted[limit - 1] in sorted;
    CursorsCompose(rows, cursor, sorted[limit - 1]);
  }

  /** All pages from a cursor on, each fetched with the cursor that the one before it returned. */
  function Pages(rows: set<Stamp>, limit: nat, cursor: Option<Stamp>): (pages: seq<seq<Stamp>>)
    requires limit >= 1
    decreases Left(rows, cursor)
  {
    var page := ListMentions(rows, limit, cursor);
    if page.next.None? then [page.items]
    else
      NextLeavesLess(rows, limit, cursor);
      [page.items] + Pages(rows, limit, page.next)
  }

  function Concat(pages: seq<seq<Stamp>>): seq<Stamp> {
    if pages == [] then [] else pages[0] + Concat(pages[1..])
  }

  /** `p` is n / d rounded up. */
  ghost predicate IsCeiling(p: nat, n: nat, d: nat) {
    (p - 1) * d < n <= p * d
  }

  lemma OneMorePage(p: nat, n: nat, d: nat)
    requires IsCeiling(p, n, d)
    ensures IsCeiling(p + 1, n + d, d)
  {
    assert (p + 1) * d == p * d + d;
    assert (p - 1) * d == p * d - d;
  }

  /**
    Following `next_cursor` from any cursor on gives exactly the rows left, newest first, nothing skipped or repeated,
    in one page when nothing is left and otherwise in as few pages as the limit allows.
   */
  lemma {:induction false} PagesAreTheList(rows: set<Stamp>, limit: nat, cursor: Option<Stamp>)
    requires limit >= 1
    ensures Concat(Pages(rows, limit, cursor)) == Descending(After(rows, cursor))
    ensures if Left(rows, cursor) == 0 then |Pages(rows, limit, cursor)| == 1
            else IsCeiling(|Pages(rows, limit, cursor)|, Left(rows, cursor), limit)
    decreases Left(rows, cursor)
  {
    hide Ordering.Descending, After, Ordering.StrictlyDescending, ListMentions, IsCeiling, Left, Concat;
    var page := ListMentions(rows, limit, cursor);
    var sorted := Descending(After(rows, cursor));
    PageIsPrefix(rows, limit, cursor);
    if page.next.None? {
      LastPage(sorted, limit);
    } else {
      NextLeavesLess(rows, limit, cursor);
      PagesAreTheList(rows, limit, page.next);
      FirstPage(page.items, Pages(rows, limit, page.next));
      assert sorted == sorted[..limit] + sorted[limit..];
      OneMorePage(|Pages(rows, limit, page.next)|, Left(rows, page.next), limit);
    }
  }

  lemma LastPage(items: seq<Stamp>, limit: nat)
    requires |items| <= limit
    ensures Concat([items]) == items && (items != [] ==> IsCeiling(1, |items|, limit))
  {
    assert Concat([items]) == items + Concat([]) == items;
  }

  lemma FirstPage(items: seq<Stamp>, pages: seq<seq<Stamp>>)
    ensures Concat([items] + pages) == items + Concat(pages)
  {
    assert ([items] + pages)[1..] == pages;
  }

  /** A row that the inbox shows: of this user in this workspace, not removed, on a live comment, unread if so asked. */
  ghost predicate Shows(inbox: Inbox, workspace: nat, user: nat, unreadOnly: bool, x: Stamp) {
    && x.id in inbox.mentions
    && (match inbox.mentions[x.id]
        case Mention(w, comment, u, createdAt, readAt, deletedAt) =>
          && w == workspace && u == user && createdAt == x.at && deletedAt == None && comment !in inbox.deletedComments
          && (readAt == None || !unreadOnly))
  }

  /** Created later, or at the same time with a larger identifier. */
  ghost predicate IsNewer(x: Stamp, y: Stamp) {
    x.at > y.at || (x.at == y.at && x.id > y.id)
  }

  lemma VisibleShows(inbox: Inbox, workspace: nat, user: nat, unreadOnly: bool, x: Stamp)
    ensures x in Visible(inbox, workspace, user, unreadOnly) <==> Shows(inbox, workspace, user, unreadOnly, x)
  {
    if Shows(inbox, workspace, user, unreadOnly, x) {
      assert x == Stamp(inbox.mentions[x.id].createdAt, x.id);
    }
  }

  lemma NewestFirst(list: seq<Stamp>)
    requires StrictlyDescending(list)
    ensures forall i, j :: 0 <= i < j < |list| ==> IsNewer(list[i], list[j])
  {
    forall i, j | 0 <= i < j < |list| ensures IsNewer(list[i], list[j]) {
      assert Older(list[j], list[i]);
    }
  }

  /**
    The inbox of a user, page by page, lists exactly the rows that it is to show, by `(created_at, id)` descending, each
    once, in as few pages as the limit allows.
   */
  lemma InboxIsTheList(inbox: Inbox, workspace: nat, user: nat, unreadOnly: bool, limit: nat)
    requires limit >= 1
    ensures var rows := Visible(inbox, workspace, user, unreadOnly); var pages := Pages(rows, limit, None);
      && Concat(pages) == Descending(rows)
      && (forall i, j :: 0 <= i < j < |Concat(pages)| ==> IsNewer(Concat(pages)[i], Concat(pages)[j]))
      && (forall x :: x in Concat(pages) <==> Shows(inbox, workspace, user, unreadOnly, x))
      && (if rows == {} then |pages| == 1 else IsCeiling(|pages|, |rows|, limit))
  {
    hide Visible, Shows, IsCeiling;
    var rows := Visible(inbox, workspace, user, unreadOnly);
    PagesAreTheList(rows, limit, None);
    NoCursorKeepsAll(rows);
    NewestFirst(Descending(rows));
    forall x ensures x in rows <==> Shows(inbox, workspace, user, unreadOnly, x) { VisibleShows(inbox, workspace, user, unreadOnly, x); }
  }
}
