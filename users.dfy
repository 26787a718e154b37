/** internal/api/users.go: the /users handler. The path is trimmed of '/' and split into
    segments; GET with exactly two segments looks the user up by the second one, POST creates
    a user, and every other verb is not found. The user store and CreateUser's outcome are
    parameters. */
module Users {
  import opened Results
  import opened Uuid
  import opened Model
  import Text

  /** The handler's answer: a status and, for a found user, the user. */
  datatype Response = Response(status: int, user: Option<User>)

  const StatusOK := 200
  const StatusCreated := 201
  const StatusNoContent := 204
  const StatusBadRequest := 400
  const StatusNotFound := 404
  const StatusInternalServerError := 500

  /** strings.Split(strings.Trim(path, "/"), "/"). */
  function Segments(path: string): (parts: seq<string>)
    ensures |parts| >= 1
  {
    Text.Split(Text.Trim(path, '/'), '/')
  }

  /** handleGetUser: a user id that is not a UUID is 400 before any lookup, a failed lookup 404. */
  function GetUser(userId: string, users: map<Uuid, User>): (r: Response)
    ensures Parse(userId).Err? ==> r == Response(StatusBadRequest, None)
    ensures Parse(userId).Ok? && Parse(userId).value !in users ==> r == Response(StatusNotFound, None)
    ensures r.status == StatusOK <==> Parse(userId).Ok? && Parse(userId).value in users
    ensures r.status == StatusOK ==> r.user == Some(users[Parse(userId).value])
  {
    var id := Parse(userId);
    if id.Err? then Response(StatusBadRequest, None)
    else if id.value !in users then Response(StatusNotFound, None)
    else Response(StatusOK, Some(users[id.value]))
  }

  /** handleCreateUser: a service error is 500, otherwise 201. */
  function CreateUser(created: Result<User>): (r: Response)
    ensures r.status == StatusCreated <==> created.Ok?
    ensures created.Err? ==> r.status == StatusInternalServerError
  {
    if created.Err? then Response(StatusInternalServerError, None) else Response(StatusCreated, None)
  }

  /** handleUsers: GET with other than two segments is 204, GET with two segments looks up
      the second, POST always creates, any other verb is 404. */
  function HandleUsers(verb: string, path: string, users: map<Uuid, User>, created: Result<User>): (r: Response)
    ensures verb == "GET" && |Segments(path)| != 2 ==> r == Response(StatusNoContent, None)
    ensures verb == "GET" && |Segments(path)| == 2 ==> r == GetUser(Segments(path)[1], users)
    ensures verb == "POST" ==> r == CreateUser(created)
    ensures verb != "GET" && verb != "POST" ==> r == Response(StatusNotFound, None)
  {
    var parts := Segments(path);
    if verb == "GET" then
      if |parts| != 2 then Response(StatusNoContent, None) else GetUser(parts[1], users)
    else if verb == "POST" then CreateUser(created)
    else Response(StatusNotFound, None)
  }

  /** "/" is a single empty segment. */
  lemma RootIsOneSegment()
    ensures Segments("/") == [""]
  {
    assert Text.TrimLeft("/", '/') == "";
  }

  /** /<x> is the single segment x. */
  lemma OneSegment(x: string)
    requires x != [] && '/' !in x
    ensures Segments("/" + x) == [x]
  {
    assert Text.TrimLeft("/" + x, '/') == x by {
      assert ("/" + x)[0] == '/' && ("/" + x)[1..] == x;
      Text.TrimLeftStep("/" + x, '/');
      Text.TrimLeftStep(x, '/');
    }
    assert Text.TrimRight(x, '/') == x by {
      Text.TrimRightStep(x, '/');
    }
    Text.SplitNoSeparator(x, '/');
  }

  /** GET /users is 204: one segment. */
  lemma GetUsersIsNoContent(users: map<Uuid, User>, created: Result<User>)
    ensures HandleUsers("GET", "/users", users, created).status == StatusNoContent
  {
    assert "/users" == "/" + "users";
    OneSegment("users");
  }

  /** "users/" + x splits into "users" and x. */
  lemma SplitUserPath(x: string)
    requires '/' !in x
    ensures Text.Split("users/" + x, '/') == ["users", x]
  {
    assert "users/" + x == "users" + ['/'] + x;
    Text.SplitAtSeparator("users", '/', x);
    Text.SplitNoSeparator(x, '/');
  }

  /** /users/<x> is the two segments "users" and x. */
  lemma UserPathSegments(x: string)
    requires x != [] && '/' !in x
    ensures Segments("/users/" + x) == ["users", x]
  {
    var t := "users/" + x;
    assert Text.TrimLeft("/users/" + x, '/') == t by {
      assert ("/users/" + x)[0] == '/' && ("/users/" + x)[1..] == t && t[0] == 'u';
      Text.TrimLeftStep("/users/" + x, '/');
      Text.TrimLeftStep(t, '/');
    }
    assert Text.TrimRight(t, '/') == t by {
      assert t[|t| - 1] == x[|x| - 1];
      Text.TrimRightStep(t, '/');
    }
    SplitUserPath(x);
  }

  /** A trailing slash is ignored: GET /users/<x>/ asks for the same user as GET /users/<x>. */
  lemma TrailingSlashIgnored(x: string)
    requires x != [] && '/' !in x
    ensures Segments("/users/" + x + "/") == Segments("/users/" + x) == ["users", x]
  {
    var t := "users/" + x;
    assert Text.TrimLeft("/users/" + x + "/", '/') == t + "/" by {
      var s := "/users/" + x + "/";
      assert s[0] == '/' && s[1..] == t + "/" && (t + "/")[0] == 'u';
      Text.TrimLeftStep(s, '/');
      Text.TrimLeftStep(t + "/", '/');
    }
    assert Text.TrimRight(t + "/", '/') == t by {
      assert (t + "/")[..|t|] == t && t[|t| - 1] == x[|x| - 1];
      Text.TrimRightStep(t + "/", '/');
      Text.TrimRightStep(t, '/');
    }
    SplitUserPath(x);
    UserPathSegments(x);
  }

  /** POST creates a user whatever the path. */
  lemma PostIgnoresPath(p: string, q: string, users: map<Uuid, User>, created: Result<User>)
    ensures HandleUsers("POST", p, users, created) == HandleUsers("POST", q, users, created)
  {
  }

  /** GET /users/1 is 400: "1" is not a UUID, so the lookup never happens. */
  lemma GetUserOneIsBadRequest(users: map<Uuid, User>, created: Result<User>)
    ensures HandleUsers("GET", "/users/1", users, created).status == StatusBadRequest
  {
    UserPathSegments("1");
    assert "/users/" + "1" == "/users/1";
    assert Segments("/users/1")[1] == "1";
    assert Parse("1").Err?;
  }
}
