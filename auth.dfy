/**
 * Directory login and group lookup (auth.py).
 *
 * The directory itself is an input: a bind of (server address, identity,
 * password) that LDAP either accepts, rejects or answers with an LDAP
 * exception, and a search of (base, filter) on the service connection that
 * yields the `memberOf` values of each entry found, or an LDAP exception.
 */
module Auth {
  import opened Wrappers
  import opened Strings

  datatype BindOutcome = Bound | Rejected | BindException

  /** Each entry found holds the distinguished names of its `memberOf` attribute. */
  datatype SearchOutcome = Entries(entries: seq<seq<string>>) | SearchException

  datatype Directory = Directory(
    bind: (string, string, string) -> BindOutcome,
    search: (string, string) -> SearchOutcome)

  /** The LDAP settings of config.py, passed in rather than read from module globals. */
  datatype DirectoryConfig = DirectoryConfig(
    serverUri: string, domain: string, serviceUsername: string, servicePassword: string)

  /** The exceptions raised by auth.py, each with the text `str(err)` gives. */
  datatype AuthError =
    | InvalidCredentials        // ValueError, auth.py:32
    | AuthenticationFailed      // ValueError, auth.py:40
    | ConnectFailed             // ValueError, auth.py:54
    | FetchGroupsFailed         // ValueError, auth.py:72
    | IndexOutOfRange           // IndexError, not caught by auth.py
  {
    function Message(): string
    {
      match this
      case InvalidCredentials => "Invalid credentials"
      case AuthenticationFailed => "LDAP authentication failed"
      case ConnectFailed => "Failed to connect to LDAP server"
      case FetchGroupsFailed => "Failed to fetch user groups"
      case IndexOutOfRange => "list index out of range"
    }
  }

  /** The logged-in principal (Flask-Login's user object). */
  class User {
    var username: string
    var groups: seq<string>

    /** `groups=None` stands for "no groups given" and becomes the empty list. */
    constructor (username: string, groups: Option<seq<string>>)
      ensures this.username == username
      ensures this.groups == (if groups.Some? then groups.value else [])
    {
      this.username := username;
      this.groups := if groups.Some? then groups.value else [];
    }

    method GetId() returns (id: string)
      ensures id == username
    {
      id := username;
    }

    method GetGroups() returns (gs: seq<string>)
      ensures gs == groups
    {
      gs := groups;
    }
  }

  /** The user-principal name `username@domain` presented to the bind. */
  function BindIdentity(username: string, domain: string): (r: string)
    ensures |r| == |username| + 1 + |domain|
    ensures r[..|username|] == username && r[|username|] == '@'
    ensures r[|username| + 1..] == domain
  {
    username + "@" + domain
  }

  /** When the username has no `@`, the identity splits back into username and domain. */
  lemma BindIdentityParts(username: string, domain: string)
    requires '@' !in username
    ensures '@' in BindIdentity(username, domain)
    ensures Before(BindIdentity(username, domain), '@') == username
    ensures After(BindIdentity(username, domain), '@') == domain
  {
    BeforeAfterJoined(username, '@', domain);
  }

  /**
   * The outcome of `authenticate`: the username of the new User, or the
   * error raised. Only the user's own credentials reach the bind.
   */
  function Authentication(serverUri: string, domain: string, username: string, password: string,
                          bind: (string, string, string) -> BindOutcome): (r: Result<string, AuthError>)
    ensures r.Success? <==> bind(serverUri, BindIdentity(username, domain), password) == Bound
    ensures r.Success? ==> r.value == username
    ensures r == Failure(InvalidCredentials) <==> bind(serverUri, BindIdentity(username, domain), password) == Rejected
    ensures r == Failure(AuthenticationFailed) <==> bind(serverUri, BindIdentity(username, domain), password) == BindException
  {
    match bind(serverUri, BindIdentity(username, domain), password)
    case Bound => Success(username)
    case Rejected => Failure(InvalidCredentials)
    case BindException => Failure(AuthenticationFailed)
  }

  /** `authenticate`: a fresh User with no groups on a successful bind, the classified error otherwise. */
  method Authenticate(serverUri: string, domain: string, username: string, password: string,
                      bind: (string, string, string) -> BindOutcome) returns (r: Result<User, AuthError>)
    ensures r.Success? <==> Authentication(serverUri, domain, username, password, bind).Success?
    ensures r.Failure? ==> r.error == Authentication(serverUri, domain, username, password, bind).error
    ensures r.Success? ==> fresh(r.value) && r.value.username == username && r.value.groups == []
  {
    match Authentication(serverUri, domain, username, password, bind)
    case Success(name) =>
      var user := new User(name, None);
      r := Success(user);
    case Failure(e) =>
      r := Failure(e);
  }

  /**
   * The search base `dc=<first label>,dc=<second label>` from the domain's
   * `.`-separated labels; a domain without a second label raises IndexError.
   */
  function SearchBase(domain: string): (r: Result<string, AuthError>)
    ensures r.Success? <==> '.' in domain
    ensures r.Failure? ==> r.error == IndexOutOfRange
    ensures r.Success? ==>
      r.value == "dc=" + Before(domain, '.') + ",dc=" + Before(After(domain, '.'), '.')
  {
    var labels := Split(domain, '.');
    if |labels| < 2 then Failure(IndexOutOfRange)
    else
      SplitSecond(domain, '.');
      Success("dc=" + labels[0] + ",dc=" + labels[1])
  }

  lemma SearchBaseExample()
    ensures SearchBase("A10.dk") == Success("dc=A10,dc=dk")
  {
    assert "A10.dk" == "A10" + ['.'] + "dk";
    BeforeAfterJoined("A10", '.', "dk");
    assert Before("dk", '.') == "dk";
    assert "dc=" + "A10" + ",dc=" + "dk" == "dc=A10,dc=dk";
    assert SearchBase("A10.dk").Success?;
  }

  /** Labels beyond the second do not change the search base. */
  lemma SearchBaseIgnoresLaterLabels(first: string, second: string, rest: string)
    requires '.' !in first && '.' !in second
    ensures SearchBase(first + "." + second + "." + rest) == SearchBase(first + "." + second)
  {
    var long := first + "." + second + "." + rest;
    var short := first + "." + second;
    assert long == first + "." + (second + "." + rest);
    BeforeAfterJoined(first, '.', second + "." + rest);
    BeforeAfterJoined(first, '.', second);
    BeforeAfterJoined(second, '.', rest);
    assert Before(second, '.') == second;
  }

  /** The search filter `(sAMAccountName=<username>)`; the username is not escaped. */
  function SearchFilter(username: string): (r: string)
    ensures |r| == |username| + 17
    ensures r[..16] == "(sAMAccountName=" && r[|r| - 1] == ')'
    ensures r[16..|r| - 1] == username
  {
    "(sAMAccountName=" + username + ")"
  }

  /**
   * The group name of a `memberOf` DN: the text between the first `=` and the
   * next `=` of the DN's first comma-separated component; None stands for the
   * IndexError raised when that component has no `=`.
   */
  function LeafGroupName(dn: string): (r: Option<string>)
    ensures r.Some? <==> '=' in Before(dn, ',')
    ensures r.Some? ==> '=' !in r.value && ',' !in r.value
    ensures r.Some? ==>
      var tail := After(Before(dn, ','), '=');
      r.value <= tail && (|r.value| == |tail| || tail[|r.value|] == '=')
  {
    var first := Before(dn, ',');
    if '=' in first then Some(Before(After(first, '='), '=')) else None
  }

  /**
   * LeafGroupName is `dn.split(',')[0].split('=')[1]`, with None for the
   * IndexError; the name holds neither `=` nor `,`.
   */
  lemma LeafGroupNameMeaning(dn: string)
    ensures var parts := Split(Split(dn, ',')[0], '=');
      && (LeafGroupName(dn).Some? <==> |parts| >= 2)
      && (LeafGroupName(dn).Some? ==> LeafGroupName(dn).value == parts[1])
    ensures LeafGroupName(dn).Some? ==> '=' !in LeafGroupName(dn).value && ',' !in LeafGroupName(dn).value
  {
    var first := Split(dn, ',')[0];
    if '=' in first {
      SplitSecond(first, '=');
      assert ',' !in first;
    }
  }

  /** A DN `attr=name,rest` with plain `attr` and `name` names `name`, e.g. `CN=IT,OU=Groups,DC=A10,DC=dk`. */
  lemma LeafGroupNameOf(attr: string, name: string, rest: string)
    requires ',' !in attr && '=' !in attr
    requires ',' !in name && '=' !in name
    ensures LeafGroupName(attr + "=" + name + "," + rest) == Some(name)
  {
    var first := attr + "=" + name;
    assert attr + "=" + name + "," + rest == first + [','] + rest;
    assert ',' !in first;
    BeforeAfterJoined(first, ',', rest);
    BeforeAfterJoined(attr, '=', name);
    LeafGroupNameMeaning(attr + "=" + name + "," + rest);
  }

  /** The names of a list of lookups, or IndexError when one of them has none. */
  function AllNames(names: seq<Option<string>>): (r: Result<seq<string>, AuthError>)
    ensures r.Success? <==> forall i :: 0 <= i < |names| ==> names[i].Some?
    ensures r.Failure? ==> r.error == IndexOutOfRange
    ensures r.Success? ==>
      && |r.value| == |names|
      && forall i :: 0 <= i < |names| ==> names[i] == Some(r.value[i])
  {
    if |names| == 0 then Success([])
    else
      match names[0]
      case None => Failure(IndexOutOfRange)
      case Some(name) =>
        match AllNames(names[1..])
        case Failure(e) => Failure(e)
        case Success(rest) =>
          var r := [name] + rest;
          assert forall i :: 1 <= i < |names| ==> names[i] == names[1..][i - 1] && r[i] == rest[i - 1];
          Success(r)
  }

  /**
   * The list comprehension over the `memberOf` values: one name per DN in
   * the same order, or IndexError when some DN has no name.
   */
  function GroupNames(dns: seq<string>): (r: Result<seq<string>, AuthError>)
    ensures r.Success? <==> forall i :: 0 <= i < |dns| ==> LeafGroupName(dns[i]).Some?
    ensures r.Failure? ==> r.error == IndexOutOfRange
    ensures r.Success? ==>
      && |r.value| == |dns|
      && forall i :: 0 <= i < |dns| ==> LeafGroupName(dns[i]) == Some(r.value[i])
  {
    var names := seq(|dns|, i requires 0 <= i < |dns| => LeafGroupName(dns[i]));
    assert forall i :: 0 <= i < |dns| ==> names[i] == LeafGroupName(dns[i]);
    AllNames(names)
  }

  /**
   * `get_user_groups`: bind as the service account, search for the user,
   * and name the groups of the first entry found.
   */
  function GetUserGroups(cfg: DirectoryConfig, dir: Directory, username: string): (r: Result<seq<string>, AuthError>)
    ensures dir.bind(cfg.serverUri, BindIdentity(cfg.serviceUsername, cfg.domain), cfg.servicePassword) == Rejected
      ==> r == Failure(ConnectFailed)
    ensures dir.bind(cfg.serverUri, BindIdentity(cfg.serviceUsername, cfg.domain), cfg.servicePassword) == BindException
      ==> r == Failure(FetchGroupsFailed)
    ensures r.Success? ==>
      && dir.bind(cfg.serverUri, BindIdentity(cfg.serviceUsername, cfg.domain), cfg.servicePassword) == Bound
      && SearchBase(cfg.domain).Success?
      && dir.search(SearchBase(cfg.domain).value, SearchFilter(username)).Entries?
    ensures
      (SearchBase(cfg.domain).Failure? &&
       dir.bind(cfg.serverUri, BindIdentity(cfg.serviceUsername, cfg.domain), cfg.servicePassword) == Bound) ==>
      r == Failure(IndexOutOfRange)
    ensures
      (SearchBase(cfg.domain).Success? &&
       dir.bind(cfg.serverUri, BindIdentity(cfg.serviceUsername, cfg.domain), cfg.servicePassword) == Bound) ==>
      var found := dir.search(SearchBase(cfg.domain).value, SearchFilter(username));
      && (found == SearchException ==> r == Failure(FetchGroupsFailed))
      && (found == Entries([]) ==> r == Success([]))
      && (found.Entries? && found.entries != [] ==> r == GroupNames(found.entries[0]))
  {
    match dir.bind(cfg.serverUri, BindIdentity(cfg.serviceUsername, cfg.domain), cfg.servicePassword)
    case BindException => Failure(FetchGroupsFailed)
    case Rejected => Failure(ConnectFailed)
    case Bound =>
      match SearchBase(cfg.domain)
      case Failure(e) => Failure(e)
      case Success(base) =>
        match dir.search(base, SearchFilter(username))
        case SearchException => Failure(FetchGroupsFailed)
        case Entries(found) =>
          if |found| == 0 then Success([]) else GroupNames(found[0])
  }

  /** A failed service-account bind ends the lookup before any search: the search cannot matter. */
  lemma NoSearchWithoutServiceBind(cfg: DirectoryConfig, bind: (string, string, string) -> BindOutcome,
                                   search1: (string, string) -> SearchOutcome,
                                   search2: (string, string) -> SearchOutcome, username: string)
    requires bind(cfg.serverUri, BindIdentity(cfg.serviceUsername, cfg.domain), cfg.servicePassword) != Bound
    ensures GetUserGroups(cfg, Directory(bind, search1), username) == GetUserGroups(cfg, Directory(bind, search2), username)
    ensures GetUserGroups(cfg, Directory(bind, search1), username).Failure?
  {
  }
}
