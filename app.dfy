/**
 * The access decisions of the web routes and the message-card table they
 * read and change (app.py). A route's answer is a Response: a page with the
 * cards it shows, a chat page, a redirect, or the 403 "Access Denied".
 */
module App {
  import opened Wrappers
  import Auth

  /** A row of the MessageCard table; `timestamp` is the insertion time, given by the caller. */
  datatype MessageCard = MessageCard(id: nat, author: string, content: string, timestamp: int, group: string)

  datatype Response =
    | Board(template: string, cards: seq<MessageCard>)
    | ChatPage(template: string, room: string)
    | Redirect(location: string)
    | Denied(body: string, status: nat)

  const AccessDenied := Denied("Access Denied", 403)
  const AdminGroup := "Enterprise Admins"
  const MainGroup := "main"
  const HomeLocation := "/"
  const AdminPanelLocation := "/admin-panel"

  // ---------------------------------------------------------------------------
  // Queries over the table

  /** `order_by(MessageCard.timestamp.desc())`: newest first. */
  predicate NewestFirst(cards: seq<MessageCard>)
  {
    forall i, j :: 0 <= i < j < |cards| ==> cards[i].timestamp >= cards[j].timestamp
  }

  /** No card of `cards` is newer than `t`. */
  predicate NoNewerThan(cards: seq<MessageCard>, t: int)
  {
    forall x :: x in cards ==> x.timestamp <= t
  }

  lemma NewestFirstCons(first: MessageCard, rest: seq<MessageCard>)
    requires NewestFirst(rest) && NoNewerThan(rest, first.timestamp)
    ensures NewestFirst([first] + rest)
  {
    var s := [first] + rest;
    forall i, j | 0 <= i < j < |s|
      ensures s[i].timestamp >= s[j].timestamp
    {
      if i == 0 {
        assert s[j] == rest[j - 1];
        assert s[j] in rest;
      } else {
        assert s[i] == rest[i - 1] && s[j] == rest[j - 1];
      }
    }
  }

  lemma NewestFirstTail(cards: seq<MessageCard>)
    requires NewestFirst(cards) && |cards| > 0
    ensures NewestFirst(cards[1..]) && NoNewerThan(cards[1..], cards[0].timestamp)
  {
    forall x | x in cards[1..]
      ensures x.timestamp <= cards[0].timestamp
    {
      var j :| 0 <= j < |cards[1..]| && cards[1..][j] == x;
      assert cards[j + 1] == x;
    }
  }

  function InsertByTime(card: MessageCard, cards: seq<MessageCard>): (r: seq<MessageCard>)
    requires NewestFirst(cards)
    ensures NewestFirst(r)
    ensures multiset(r) == multiset(cards) + multiset{card}
    ensures forall x :: x in r ==> x == card || x in cards
  {
    if |cards| == 0 || card.timestamp >= cards[0].timestamp then
      NewestFirstCons(card, cards);
      [card] + cards
    else
      NewestFirstTail(cards);
      var rest := InsertByTime(card, cards[1..]);
      assert cards == [cards[0]] + cards[1..];
      NewestFirstCons(cards[0], rest);
      [cards[0]] + rest
  }

  /** The cards in newest-first order; the order among equal timestamps is not promised by the database. */
  function SortNewestFirst(cards: seq<MessageCard>): (r: seq<MessageCard>)
    ensures NewestFirst(r)
    ensures multiset(r) == multiset(cards)
  {
    if |cards| == 0 then []
    else
      assert cards == [cards[0]] + cards[1..];
      InsertByTime(cards[0], SortNewestFirst(cards[1..]))
  }

  /** `filter(MessageCard.group.in_(groups))`, and `filter_by(group=g)` as `groups == [g]`. */
  function InGroups(cards: seq<MessageCard>, groups: seq<string>): (r: seq<MessageCard>)
    ensures forall c :: c in r <==> c in cards && c.group in groups
    ensures forall c :: multiset(r)[c] == if c.group in groups then multiset(cards)[c] else 0
  {
    if |cards| == 0 then []
    else
      assert cards == [cards[0]] + cards[1..];
      var rest := InGroups(cards[1..], groups);
      if cards[0].group in groups then [cards[0]] + rest else rest
  }

  /** The card ids, unique and in insertion order, as an INTEGER PRIMARY KEY keeps them. */
  predicate IdsIncreasing(cards: seq<MessageCard>)
  {
    forall i, j :: 0 <= i < j < |cards| ==> cards[i].id < cards[j].id
  }

  /** The id the database gives a new row: one more than the largest id, or 1 in an empty table. */
  function NextId(cards: seq<MessageCard>): (r: nat)
    ensures r >= 1
    ensures IdsIncreasing(cards) ==> forall c :: c in cards ==> c.id < r
  {
    if |cards| == 0 then 1 else cards[|cards| - 1].id + 1
  }

  /** Any card given the next id can be appended with the ids still increasing. */
  lemma NextIdIsFresh(cards: seq<MessageCard>)
    requires IdsIncreasing(cards)
    ensures forall c: MessageCard :: c.id == NextId(cards) ==> IdsIncreasing(cards + [c])
  {
  }

  /** The table after deleting the row with this id, if there is one. */
  function WithoutId(cards: seq<MessageCard>, id: nat): (r: seq<MessageCard>)
    ensures forall c :: c in r <==> c in cards && c.id != id
    ensures |r| <= |cards|
  {
    if |cards| == 0 then []
    else
      var rest := WithoutId(cards[1..], id);
      if cards[0].id == id then rest else [cards[0]] + rest
  }

  /** A card with a smaller id than every card of an increasing table can go in front of it. */
  lemma IdsIncreasingCons(first: MessageCard, rest: seq<MessageCard>)
    requires IdsIncreasing(rest)
    requires forall c :: c in rest ==> first.id < c.id
    ensures IdsIncreasing([first] + rest)
  {
    var s := [first] + rest;
    forall i, j | 0 <= i < j < |s|
      ensures s[i].id < s[j].id
    {
      if i == 0 {
        assert s[j] == rest[j - 1];
        assert s[j] in rest;
      } else {
        assert s[i] == rest[i - 1] && s[j] == rest[j - 1];
      }
    }
  }

  /** The first card of an increasing table has the smallest id, and the rest is increasing. */
  lemma IdsIncreasingTail(cards: seq<MessageCard>)
    requires IdsIncreasing(cards) && |cards| > 0
    ensures IdsIncreasing(cards[1..])
    ensures forall c :: c in cards[1..] ==> cards[0].id < c.id
  {
    forall c | c in cards[1..]
      ensures cards[0].id < c.id
    {
      var j :| 0 <= j < |cards[1..]| && cards[1..][j] == c;
      assert cards[j + 1] == c;
    }
  }

  /** The cards in front of card `k` have smaller ids, those behind it larger ones. */
  lemma IdsIncreasingAround(cards: seq<MessageCard>, k: nat, before: seq<MessageCard>, after: seq<MessageCard>)
    requires IdsIncreasing(cards) && k < |cards|
    requires before == cards[..k] && after == cards[k + 1..]
    ensures cards == before + [cards[k]] + after
    ensures forall i :: 0 <= i < |before| ==> before[i].id < cards[k].id
    ensures forall i :: 0 <= i < |after| ==> after[i].id > cards[k].id
  {
    forall i | 0 <= i < |after|
      ensures after[i].id > cards[k].id
    {
      assert after[i] == cards[k + 1 + i];
    }
  }

  /** Deleting keeps the remaining ids increasing. */
  lemma {:induction false} WithoutIdKeepsOrder(cards: seq<MessageCard>, id: nat)
    requires IdsIncreasing(cards)
    ensures IdsIncreasing(WithoutId(cards, id))
  {
    if |cards| > 0 {
      IdsIncreasingTail(cards);
      WithoutIdKeepsOrder(cards[1..], id);
      if cards[0].id != id {
        IdsIncreasingCons(cards[0], WithoutId(cards[1..], id));
      }
    }
  }

  /** In a table with unique ids, deleting an existing id removes exactly that card. */
  lemma WithoutIdRemovesExactly(cards: seq<MessageCard>, k: nat)
    requires IdsIncreasing(cards)
    requires k < |cards|
    ensures WithoutId(cards, cards[k].id) == cards[..k] + cards[k + 1..]
  {
    var before, after := cards[..k], cards[k + 1..];
    IdsIncreasingAround(cards, k, before, after);
    WithoutIdRemovesOnly(before, cards[k], after);
  }

  /** Deleting the id of a card that no other card has removes that card alone. */
  lemma WithoutIdRemovesOnly(before: seq<MessageCard>, card: MessageCard, after: seq<MessageCard>)
    requires forall i :: 0 <= i < |before| ==> before[i].id != card.id
    requires forall i :: 0 <= i < |after| ==> after[i].id != card.id
    ensures WithoutId(before + [card] + after, card.id) == before + after
  {
    WithoutIdAbsent(before, card.id);
    WithoutIdAbsent(after, card.id);
    WithoutIdConcat(before + [card], after, card.id);
    WithoutIdConcat(before, [card], card.id);
    assert WithoutId([card], card.id) == [];
    assert before + [] == before;
    assert WithoutId(before + [card], card.id) == before;
  }

  /** Deleting from a concatenation deletes from each part. */
  lemma {:induction false} WithoutIdConcat(a: seq<MessageCard>, b: seq<MessageCard>, id: nat)
    ensures WithoutId(a + b, id) == WithoutId(a, id) + WithoutId(b, id)
  {
    if |a| == 0 {
      assert a + b == b;
    } else {
      assert (a + b)[1..] == a[1..] + b;
      WithoutIdConcat(a[1..], b, id);
    }
  }

  /** Deleting an id that no card has leaves the table as it is. */
  lemma {:induction false} WithoutIdAbsent(cards: seq<MessageCard>, id: nat)
    requires forall i :: 0 <= i < |cards| ==> cards[i].id != id
    ensures WithoutId(cards, id) == cards
  {
    if |cards| > 0 {
      var rest := cards[1..];
      assert forall i :: 0 <= i < |rest| ==> rest[i] == cards[i + 1];
      WithoutIdAbsent(rest, id);
      assert WithoutId(cards, id) == [cards[0]] + rest;
      assert cards == [cards[0]] + rest;
    }
  }

  /** `query.all().__reversed__()`: the rows in the opposite of insertion order. */
  function Reverse(cards: seq<MessageCard>): (r: seq<MessageCard>)
    ensures |r| == |cards|
    ensures forall i :: 0 <= i < |cards| ==> r[i] == cards[|cards| - 1 - i]
  {
    if |cards| == 0 then [] else Reverse(cards[1..]) + [cards[0]]
  }

  // ---------------------------------------------------------------------------
  // The gates of the chat routes; each answers from the user's groups alone

  /** The three fixed chat routes `/it-chat`, `/hr-chat` and `/manager-chat`. */
  datatype ChatRoom = ItRoom | HrRoom | ManagerRoom
  {
    /** The group whose members may enter. */
    function Group(): string
    {
      match this
      case ItRoom => "IT"
      case HrRoom => "HR"
      case ManagerRoom => "Manager"
    }

    /** The page rendered for a member, with the Socket.IO room it joins. */
    function Page(): Response
    {
      match this
      case ItRoom => ChatPage("it-chat.html", "IT")
      case HrRoom => ChatPage("hr-chat.html", "HR")
      case ManagerRoom => ChatPage("manager-chat.html", "manager")
    }
  }

  /** A fixed chat route: its page for members of its group, otherwise a redirect home. */
  function ChatView(user: Auth.User, room: ChatRoom): (r: Response)
    reads user
    ensures r == room.Page() <==> room.Group() in user.groups
    ensures room.Group() !in user.groups ==> r == Redirect(HomeLocation)
    ensures r.ChatPage? || r == Redirect(HomeLocation)
  {
    if room.Group() in user.groups then room.Page() else Redirect(HomeLocation)
  }

  /** The membership test is exact: a group name that differs in case does not open the IT chat. */
  lemma ChatGateIsCaseSensitive(user: Auth.User)
    requires user.groups == ["it"]
    ensures ChatView(user, ItRoom) == Redirect(HomeLocation)
  {
    assert "it" != "IT";
  }

  // ---------------------------------------------------------------------------
  // The MessageCard table and the routes that use it

  class MessageBoard {
    var cards: seq<MessageCard>

    ghost predicate Valid()
      reads this
    {
      IdsIncreasing(cards)
    }

    constructor ()
      ensures Valid() && cards == []
    {
      cards := [];
    }

    /** `db.session.add(card)`: the new card gets the next id and is appended. */
    method Add(author: string, content: string, group: string, now: int) returns (card: MessageCard)
      requires Valid()
      modifies this
      ensures Valid()
      ensures card == MessageCard(NextId(old(cards)), author, content, now, group)
      ensures cards == old(cards) + [card]
    {
      card := MessageCard(NextId(cards), author, content, now, group);
      cards := cards + [card];
    }

    /** `db.session.delete(post)` for the row with this id, when there is one. */
    method Remove(id: nat)
      requires Valid()
      modifies this
      ensures Valid()
      ensures cards == WithoutId(old(cards), id)
    {
      WithoutIdKeepsOrder(cards, id);
      cards := WithoutId(cards, id);
    }

    /** GET `/`: exactly the cards of group `main`, newest first. */
    method HomeView() returns (resp: Response)
      ensures resp.Board? && resp.template == "home.html"
      ensures forall c :: c in resp.cards <==> c in cards && c.group == MainGroup
      ensures multiset(resp.cards) == multiset(InGroups(cards, [MainGroup]))
      ensures NewestFirst(resp.cards)
    {
      resp := Board("home.html", SortNewestFirst(InGroups(cards, [MainGroup])));
    }

    /** POST `/`: add a `main` card by the current user, then go back to the referring page. */
    method HomePost(user: Auth.User, content: string, now: int, referrer: string) returns (resp: Response)
      requires Valid()
      modifies this
      ensures Valid()
      ensures cards == old(cards) + [MessageCard(NextId(old(cards)), user.username, content, now, MainGroup)]
      ensures resp == Redirect(referrer)
    {
      var _ := Add(user.username, content, MainGroup, now);
      resp := Redirect(referrer);
    }

    /** GET `/message-poster`: exactly the cards of the user's groups, newest first. */
    method MessagePosterView(user: Auth.User) returns (resp: Response)
      ensures resp.Board? && resp.template == "message_poster.html"
      ensures forall c :: c in resp.cards <==> c in cards && c.group in user.groups
      ensures multiset(resp.cards) == multiset(InGroups(cards, user.groups))
      ensures NewestFirst(resp.cards)
    {
      resp := Board("message_poster.html", SortNewestFirst(InGroups(cards, user.groups)));
    }

    /** POST `/message-poster`: add a card to any group, member or not, then go back. */
    method MessagePosterPost(user: Auth.User, content: string, group: string, now: int, referrer: string)
      returns (resp: Response)
      requires Valid()
      modifies this
      ensures Valid()
      ensures cards == old(cards) + [MessageCard(NextId(old(cards)), user.username, content, now, group)]
      ensures resp == Redirect(referrer)
    {
      var _ := Add(user.username, content, group, now);
      resp := Redirect(referrer);
    }

    /** `/<group>-chat`: 403 for non-members, otherwise exactly that group's cards, newest first. */
    method GroupChat(user: Auth.User, group: string) returns (resp: Response)
      ensures resp == AccessDenied <==> group !in user.groups
      ensures group in user.groups ==>
        && resp.Board? && resp.template == "message_board.html"
        && (forall c :: c in resp.cards <==> c in cards && c.group == group)
        && multiset(resp.cards) == multiset(InGroups(cards, [group]))
        && NewestFirst(resp.cards)
    {
      if group !in user.groups {
        return AccessDenied;
      }
      resp := Board("message_board.html", SortNewestFirst(InGroups(cards, [group])));
    }

    /** `/admin-panel`: 403 outside `Enterprise Admins`, otherwise every card, most recently added first. */
    method AdminPanel(user: Auth.User) returns (resp: Response)
      requires Valid()
      ensures resp == AccessDenied <==> AdminGroup !in user.groups
      ensures AdminGroup in user.groups ==>
        && resp.Board? && resp.template == "admin_panel.html"
        && |resp.cards| == |cards|
        && (forall i :: 0 <= i < |cards| ==> resp.cards[i] == cards[|cards| - 1 - i])
        && (forall i, j :: 0 <= i < j < |resp.cards| ==> resp.cards[i].id > resp.cards[j].id)
    {
      if AdminGroup !in user.groups {
        return AccessDenied;
      }
      resp := Board("admin_panel.html", Reverse(cards));
    }

    /**
     * `/delete-post/<id>`: 403 and nothing deleted outside `Enterprise Admins`;
     * otherwise the card with that id, if any, is deleted and the admin panel follows.
     */
    method DeletePost(user: Auth.User, postId: nat) returns (resp: Response)
      requires Valid()
      modifies this
      ensures Valid()
      ensures resp == AccessDenied <==> AdminGroup !in user.groups
      ensures AdminGroup !in user.groups ==> cards == old(cards)
      ensures AdminGroup in user.groups ==>
        cards == WithoutId(old(cards), postId) && resp == Redirect(AdminPanelLocation)
    {
      if AdminGroup !in user.groups {
        return AccessDenied;
      }
      Remove(postId);
      resp := Redirect(AdminPanelLocation);
    }
  }

  // ---------------------------------------------------------------------------
  // Session loading

  /**
   * `load_user`: a User for the session's username whose groups come from a
   * fresh directory lookup; a failed lookup raises and yields no User.
   */
  method LoadUser(cfg: Auth.DirectoryConfig, dir: Auth.Directory, username: string)
    returns (r: Result<Auth.User, Auth.AuthError>)
    ensures r.Success? <==> Auth.GetUserGroups(cfg, dir, username).Success?
    ensures r.Failure? ==> r.error == Auth.GetUserGroups(cfg, dir, username).error
    ensures r.Success? ==>
      && fresh(r.value)
      && r.value.username == username
      && r.value.groups == Auth.GetUserGroups(cfg, dir, username).value
  {
    var user := new Auth.User(username, None);
    match Auth.GetUserGroups(cfg, dir, username)
    case Failure(e) =>
      r := Failure(e);
    case Success(groups) =>
      user.groups := groups;
      r := Success(user);
  }
}
