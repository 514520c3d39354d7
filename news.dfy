/**
 * News posts (news.py): input validation, the stored permission string,
 * the table the posts are inserted into, and the paged news query.
 */
module News {
  import opened Strings

  /** The Python values a form field can hold when it reaches `validate_input`. */
  datatype PyValue = PyNone | PyStr(s: string) | PyInt(n: int) | PyList(items: seq<PyValue>)

  const MaxTitleLength: nat := 100
  const MaxContentLength: nat := 2000

  /** The ValueErrors raised by `validate_input`, in the order it checks. */
  datatype ValidationError = BadTitle | BadContent | BadAuthor | BadTimestamp | BadPermissions
  {
    function Message(): string
    {
      match this
      case BadTitle => "Title must be a string between 1 and 100 characters"
      case BadContent => "Content must be a string between 1 and 2000 characters"
      case BadAuthor => "Author must be a non-empty string"
      case BadTimestamp => "Timestamp must be a non-empty string"
      case BadPermissions => "Permissions skal være en liste af strenge"
    }
  }

  datatype Check = Passed | Failed(error: ValidationError)

  predicate TitleOk(title: PyValue) { title.PyStr? && 1 <= |title.s| <= MaxTitleLength }
  predicate ContentOk(content: PyValue) { content.PyStr? && 1 <= |content.s| <= MaxContentLength }
  predicate NonEmptyStr(v: PyValue) { v.PyStr? && |v.s| > 0 }
  predicate IsStrList(v: PyValue) { v.PyList? && forall i :: 0 <= i < |v.items| ==> v.items[i].PyStr? }

  /** `validate_input`: passes iff every check holds, and otherwise names the first check that fails. */
  function ValidateInput(title: PyValue, content: PyValue, author: PyValue,
                         permissions: PyValue, timestamp: PyValue): (r: Check)
    ensures r == Passed <==>
      TitleOk(title) && ContentOk(content) && NonEmptyStr(author) && NonEmptyStr(timestamp) && IsStrList(permissions)
    ensures r == Failed(BadTitle) <==> !TitleOk(title)
    ensures r == Failed(BadContent) <==> TitleOk(title) && !ContentOk(content)
    ensures r == Failed(BadAuthor) <==> TitleOk(title) && ContentOk(content) && !NonEmptyStr(author)
    ensures r == Failed(BadTimestamp) <==>
      TitleOk(title) && ContentOk(content) && NonEmptyStr(author) && !NonEmptyStr(timestamp)
    ensures r == Failed(BadPermissions) <==>
      TitleOk(title) && ContentOk(content) && NonEmptyStr(author) && NonEmptyStr(timestamp) && !IsStrList(permissions)
  {
    if !TitleOk(title) then Failed(BadTitle)
    else if !ContentOk(content) then Failed(BadContent)
    else if !NonEmptyStr(author) then Failed(BadAuthor)
    else if !NonEmptyStr(timestamp) then Failed(BadTimestamp)
    else if !IsStrList(permissions) then Failed(BadPermissions)
    else Passed
  }

  /** The strings of a list every item of which is a string. */
  function Texts(items: seq<PyValue>): (r: seq<string>)
    requires forall i :: 0 <= i < |items| ==> items[i].PyStr?
    ensures |r| == |items| && forall i :: 0 <= i < |items| ==> r[i] == items[i].s
  {
    if |items| == 0 then [] else [items[0].s] + Texts(items[1..])
  }

  const PublicPermission := "Public"
  const PermissionSeparator := ", "

  /** The `permissions` column: `"Public"` for no permissions, else the permissions joined by `", "`. */
  function StoredPermissions(permissions: seq<string>): (r: string)
    ensures permissions == [] ==> r == PublicPermission
    ensures |permissions| == 1 ==> r == permissions[0]
    ensures |permissions| >= 1 ==> permissions[0] <= r
    ensures |permissions| >= 1 ==>
      var last := permissions[|permissions| - 1];
      |last| <= |r| && r[|r| - |last|..] == last
  {
    if |permissions| == 0 then PublicPermission else Join(permissions, PermissionSeparator)
  }

  /**
   * Each permission a post was created with occurs in its stored string, so
   * the `%<permission>%` pattern of a reader holding it is built from text
   * the column contains; a post created with none contains `Public`.
   */
  lemma StoredPermissionsContain(permissions: seq<string>)
    ensures forall i :: 0 <= i < |permissions| ==> Contains(StoredPermissions(permissions), permissions[i])
    ensures permissions == [] ==> StoredPermissions(permissions) == PublicPermission
    ensures Contains(StoredPermissions([]), PublicPermission)
  {
    forall i | 0 <= i < |permissions|
      ensures Contains(StoredPermissions(permissions), permissions[i])
    {
      JoinContains(permissions, PermissionSeparator, i);
    }
    assert PublicPermission <= StoredPermissions([])[0..];
  }

  /** Each text after the first, with a space in front. */
  function SpaceLed(texts: seq<string>): (r: seq<string>)
    ensures |r| == |texts| && forall i :: 0 <= i < |texts| ==> r[i] == " " + texts[i]
  {
    seq(|texts|, i requires 0 <= i < |texts| => " " + texts[i])
  }

  /** Joining by `", "` is joining by `,` the texts after the first with a space in front. */
  lemma {:induction false} JoinCommaSpace(texts: seq<string>)
    requires |texts| >= 1
    ensures " " + Join(texts, PermissionSeparator) == Join(SpaceLed(texts), ",")
  {
    if |texts| >= 2 {
      var tail := texts[1..];
      var led := SpaceLed(texts);
      assert led[1..] == SpaceLed(tail);
      var rest := Join(tail, PermissionSeparator);
      var x := " " + texts[0];
      assert " " + (texts[0] + ", " + rest) == x + "," + (" " + rest);
      assert led[0] == x;
      JoinCommaSpace(tail);
      assert Join(led, ",") == x + "," + Join(led[1..], ",");
    }
  }

  /** The stored column of one or more permissions, as a `,`-join. */
  lemma StoredPermissionsCommaJoin(permissions: seq<string>)
    requires |permissions| >= 1
    ensures StoredPermissions(permissions) == Join([permissions[0]] + SpaceLed(permissions[1..]), ",")
  {
    var pieces := [permissions[0]] + SpaceLed(permissions[1..]);
    if |permissions| >= 2 {
      var tail := permissions[1..];
      assert pieces[1..] == SpaceLed(tail);
      JoinCommaSpace(tail);
      var rest := Join(tail, PermissionSeparator);
      assert StoredPermissions(permissions) == permissions[0] + ", " + rest;
      assert permissions[0] + ", " + rest == permissions[0] + "," + (" " + rest);
    }
  }

  /**
   * Splitting the stored column at `,` gives the first permission, then each
   * later one with the space of the separator in front, when no permission
   * holds a `,`.
   */
  lemma StoredPermissionsSplit(permissions: seq<string>)
    requires |permissions| >= 1
    requires forall i :: 0 <= i < |permissions| ==> ',' !in permissions[i]
    ensures Split(StoredPermissions(permissions), ',') == [permissions[0]] + SpaceLed(permissions[1..])
  {
    var pieces := [permissions[0]] + SpaceLed(permissions[1..]);
    forall i | 0 <= i < |pieces|
      ensures ',' !in pieces[i]
    {
      if i > 0 {
        assert pieces[i] == " " + permissions[i];
      }
    }
    StoredPermissionsCommaJoin(permissions);
    SplitJoin(pieces, ',');
  }

  /** A single permission is stored as it is; two or more are separated by `", "` in input order. */
  lemma StoredPermissionsOrder(permissions: seq<string>)
    requires |permissions| >= 1
    ensures |permissions| == 1 ==> StoredPermissions(permissions) == permissions[0]
    ensures |permissions| >= 2 ==>
      StoredPermissions(permissions) == permissions[0] + ", " + StoredPermissions(permissions[1..])
  {
  }

  datatype NewsRow = NewsRow(title: string, content: string, author: string, permissions: string, timestamp: string)

  /** What validation guarantees of every row it lets through. */
  predicate WellFormedRow(row: NewsRow)
  {
    && 1 <= |row.title| <= MaxTitleLength
    && 1 <= |row.content| <= MaxContentLength
    && |row.author| > 0
    && |row.timestamp| > 0
  }

  /** The `news` table, with rows in insertion order. */
  class NewsTable {
    var rows: seq<NewsRow>

    ghost predicate Valid()
      reads this
    {
      forall i :: 0 <= i < |rows| ==> WellFormedRow(rows[i])
    }

    constructor ()
      ensures Valid() && rows == []
    {
      rows := [];
    }

    /**
     * `add_post_to_database`: validate first; on failure raise and insert
     * nothing, otherwise insert one row with the stored permission string.
     */
    method AddPost(title: PyValue, content: PyValue, author: PyValue,
                   permissions: PyValue, timestamp: PyValue) returns (r: Check)
      requires Valid()
      modifies this
      ensures Valid()
      ensures r == ValidateInput(title, content, author, permissions, timestamp)
      ensures r.Failed? ==> rows == old(rows)
      ensures r.Passed? ==>
        rows == old(rows) + [NewsRow(title.s, content.s, author.s,
                                     StoredPermissions(Texts(permissions.items)), timestamp.s)]
    {
      r := ValidateInput(title, content, author, permissions, timestamp);
      if r.Passed? {
        var stored := StoredPermissions(Texts(permissions.items));
        var row := NewsRow(title.s, content.s, author.s, stored, timestamp.s);
        rows := rows + [row];
      }
    }
  }

  /** The `permissions` argument of `get_latest_news`: a list, a lone string, or None. */
  datatype Permissions = PermList(items: seq<string>) | PermOne(s: string) | PermNone

  /** Python truthiness of the argument: a non-empty list or a non-empty string. */
  predicate Truthy(p: Permissions)
    ensures Truthy(p) ==> |AsList(p)| >= 1
    ensures p.PermNone? ==> !Truthy(p)
    ensures p.PermList? ==> (Truthy(p) <==> p.items != [])
  {
    match p
    case PermList(items) => |items| > 0
    case PermOne(s) => |s| > 0
    case PermNone => false
  }

  /** A non-list argument is wrapped as a one-element list. */
  function AsList(p: Permissions): (r: seq<string>)
    ensures p.PermList? ==> r == p.items
    ensures p.PermOne? ==> |r| == 1 && r[0] == p.s
    ensures !p.PermList? ==> |r| <= 1
  {
    match p
    case PermList(items) => items
    case PermOne(s) => [s]
    case PermNone => []
  }

  datatype SqlParam = SqlText(s: string) | SqlInt(n: int)
  datatype Query = Query(sql: string, params: seq<SqlParam>)

  const LikeClause := "permissions LIKE ?"
  const OrSeparator := " OR "
  const SelectPrefix := "SELECT * FROM news WHERE "
  const OrderSuffix := " ORDER BY timestamp DESC LIMIT ? OFFSET ?"

  /** The generator `"permissions LIKE ?" for perm in permissions`. */
  function Clauses(n: nat): (r: seq<string>)
    ensures |r| == n && forall i :: 0 <= i < n ==> r[i] == LikeClause
  {
    seq(n, _ => LikeClause)
  }

  /** The WHERE clause: one `permissions LIKE ?` per permission, joined by `" OR "`. */
  function LikeClauses(n: nat): (r: string)
    ensures n == 0 ==> r == ""
    ensures n >= 1 ==> LikeClause <= r
    ensures n >= 1 ==> |LikeClause| <= |r| && r[|r| - |LikeClause|..] == LikeClause
  {
    Join(Clauses(n), OrSeparator)
  }

  /** Placeholders of a concatenation are those of its parts. */
  lemma PlaceholdersOfConcat(a: string, b: string, c: string)
    ensures multiset(a + b + c)['?'] == multiset(a)['?'] + multiset(b)['?'] + multiset(c)['?']
  {
    assert multiset(a + b + c) == multiset(a) + multiset(b) + multiset(c);
  }

  lemma NoPlaceholder(s: string)
    requires '?' !in s
    ensures multiset(s)['?'] == 0
  {
  }

  /** `text ?`, and `text ? text ?`, for texts free of `?`. */
  lemma Placeholders(a: string, b: string)
    requires '?' !in a && '?' !in b
    ensures multiset(a + "?")['?'] == 1
    ensures multiset(a + "?" + b + "?")['?'] == 2
  {
    NoPlaceholder(a);
    NoPlaceholder(b);
    assert multiset(a + "?")['?'] == multiset(a)['?'] + multiset("?")['?'];
    assert multiset(a + "?" + b + "?")['?']
      == multiset(a)['?'] + multiset("?")['?'] + multiset(b)['?'] + multiset("?")['?'];
  }

  /** The fixed parts of the query: one `?` per LIKE clause, none before WHERE, two for LIMIT and OFFSET. */
  lemma PlaceholderCounts()
    ensures multiset(LikeClause)['?'] == 1
    ensures '?' !in OrSeparator
    ensures multiset(SelectPrefix)['?'] == 0
    ensures multiset(OrderSuffix)['?'] == 2
  {
    LikeClausePlaceholder();
    SelectPrefixPlaceholders();
    OrderSuffixPlaceholders();
  }

  lemma LikeClausePlaceholder()
    ensures multiset(LikeClause)['?'] == 1
  {
    assert LikeClause == "permissions LIKE " + "?";
    Placeholders("permissions LIKE ", "");
  }

  lemma SelectPrefixPlaceholders()
    ensures multiset(SelectPrefix)['?'] == 0
  {
    NoPlaceholder(SelectPrefix);
  }

  lemma OrderSuffixPlaceholders()
    ensures multiset(OrderSuffix)['?'] == 2
  {
    assert OrderSuffix == " ORDER BY timestamp DESC LIMIT " + "?" + " OFFSET " + "?";
    Placeholders(" ORDER BY timestamp DESC LIMIT ", " OFFSET ");
  }

  /** The WHERE clause for `n` permissions holds exactly `n` placeholders. */
  lemma LikeClausesPlaceholders(n: nat)
    ensures multiset(LikeClauses(n))['?'] == n
  {
    PlaceholderCounts();
    JoinCount(Clauses(n), OrSeparator, '?');
  }

  /** The clauses for `n + 1` permissions are those for `n` after `"permissions LIKE ? OR "`. */
  lemma LikeClausesStep(n: nat)
    requires n >= 1
    ensures LikeClauses(n + 1) == LikeClause + OrSeparator + LikeClauses(n)
  {
    assert Clauses(n + 1)[1..] == Clauses(n);
  }

  /** The LIKE patterns, `%<permission>%` for each permission in order. */
  function LikeParams(ps: seq<string>): (r: seq<SqlParam>)
    ensures |r| == |ps|
    ensures forall i :: 0 <= i < |ps| ==> r[i] == SqlText("%" + ps[i] + "%")
  {
    seq(|ps|, i requires 0 <= i < |ps| => SqlText("%" + ps[i] + "%"))
  }

  /** `(page - 1) * page_size`, the number of rows skipped. */
  function Offset(page: int, pageSize: int): (r: int)
    ensures page == 1 ==> r == 0
    ensures page >= 1 && pageSize >= 0 ==> r >= 0
  {
    (page - 1) * pageSize
  }

  /** `get_latest_news`, up to executing the query. */
  function LatestNewsQuery(permissions: Permissions, page: int, pageSize: int): (q: Query)
    ensures |q.params| == (if Truthy(permissions) then |AsList(permissions)| else 1) + 2
    ensures q.params[|q.params| - 2] == SqlInt(pageSize)
    ensures q.params[|q.params| - 1] == SqlInt(Offset(page, pageSize))
    ensures SelectPrefix <= q.sql
  {
    if Truthy(permissions) then
      var ps := AsList(permissions);
      Query(SelectPrefix + LikeClauses(|ps|) + OrderSuffix,
            LikeParams(ps) + [SqlInt(pageSize), SqlInt(Offset(page, pageSize))])
    else
      Query(SelectPrefix + LikeClauses(1) + OrderSuffix,
            [SqlText("%" + PublicPermission + "%"), SqlInt(pageSize), SqlInt(Offset(page, pageSize))])
  }

  /** The query text for `n` LIKE clauses holds `n + 2` placeholders. */
  lemma QueryTextPlaceholders(n: nat)
    ensures multiset(SelectPrefix + LikeClauses(n) + OrderSuffix)['?'] == n + 2
  {
    PlaceholderCounts();
    LikeClausesPlaceholders(n);
    PlaceholdersOfConcat(SelectPrefix, LikeClauses(n), OrderSuffix);
  }

  /** Every `?` of the query has exactly one parameter. */
  lemma LatestNewsQueryPlaceholders(permissions: Permissions, page: int, pageSize: int)
    ensures var q := LatestNewsQuery(permissions, page, pageSize);
      multiset(q.sql)['?'] == |q.params|
  {
    var n := if Truthy(permissions) then |AsList(permissions)| else 1;
    QueryTextPlaceholders(n);
  }

  /** The last two parameters are the page size and the offset `(page - 1) * page_size`. */
  lemma LatestNewsQueryPaging(permissions: Permissions, page: int, pageSize: int)
    ensures var q := LatestNewsQuery(permissions, page, pageSize);
      && |q.params| >= 3
      && q.params[|q.params| - 2] == SqlInt(pageSize)
      && q.params[|q.params| - 1] == SqlInt((page - 1) * pageSize)
  {
  }

  /**
   * With permissions, one `permissions LIKE ?` clause and one `%<permission>%`
   * pattern per permission, in order; a lone string counts as one permission.
   */
  lemma LatestNewsQueryWithPermissions(permissions: Permissions, page: int, pageSize: int)
    requires Truthy(permissions)
    ensures var q := LatestNewsQuery(permissions, page, pageSize);
      var ps := AsList(permissions);
      && q.sql == SelectPrefix + LikeClauses(|ps|) + OrderSuffix
      && |q.params| == |ps| + 2
      && forall i :: 0 <= i < |ps| ==> q.params[i] == SqlText("%" + ps[i] + "%")
    ensures permissions.PermOne? ==> AsList(permissions) == [permissions.s]
  {
  }

  /**
   * Without permissions the only pattern is `%Public%`: the query is the one
   * a reader holding just `Public` would run, with the single clause.
   */
  lemma LatestNewsQueryPublic(permissions: Permissions, page: int, pageSize: int)
    requires !Truthy(permissions)
    ensures LatestNewsQuery(permissions, page, pageSize).params
      == [SqlText("%Public%"), SqlInt(pageSize), SqlInt((page - 1) * pageSize)]
    ensures LatestNewsQuery(permissions, page, pageSize) == LatestNewsQuery(PermOne(PublicPermission), page, pageSize)
    ensures LatestNewsQuery(permissions, page, pageSize).sql == SelectPrefix + LikeClause + OrderSuffix
  {
    assert "%" + PublicPermission + "%" == "%Public%";
    assert LatestNewsQuery(PermOne(PublicPermission), page, pageSize).params
      == LikeParams([PublicPermission]) + [SqlInt(pageSize), SqlInt((page - 1) * pageSize)];
  }

  /** Page 1 starts at the first row, and consecutive pages start exactly one page apart. */
  lemma OffsetsTile(page: int, pageSize: int)
    ensures Offset(1, pageSize) == 0
    ensures Offset(page + 1, pageSize) == Offset(page, pageSize) + pageSize
  {
    calc {
      Offset(page + 1, pageSize);
      page * pageSize;
      (page - 1) * pageSize + pageSize;
    }
  }
}
