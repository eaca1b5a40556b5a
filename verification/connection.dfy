/** `src/views/common/connection.ts`: pulling host, port, database, user
    and password out of a vendor connection string, and the built-in
    connection-string templates. Each field is the capture of a regular
    expression `Key=(.*?);` (or `Key=(.*?)(\)|;)` for Oracle) matched
    case-insensitively. */
module Connection {
  import opened Common

  // ---------------------------------------------------------------------
  // The capture `s.match(/Key=(.*?)<stop>/i)[1]`
  // ---------------------------------------------------------------------

  /** The characters `.` does not match in a JavaScript regular
      expression. */
  const LineTerminators: set<char> := {'\n', '\r', '\U{2028}', '\U{2029}'}

  const Semicolon: set<char> := {';'}

  /** The Oracle terminator class `(\)|;)`. */
  const ParenOrSemicolon: set<char> := {')', ';'}

  /** The case folding of an `i` regular expression on the ASCII letters
      the keys are made of; no other character folds onto one of them. */
  function Fold(c: char): (r: char)
    ensures ('a' <= c <= 'z') ==> r as int == c as int - 32
    ensures !('a' <= c <= 'z') ==> r == c
  {
    if 'a' <= c <= 'z' then (c as int - 32) as char else c
  }

  /** `key` occurs at `p`, letter case ignored. */
  predicate KeyAt(s: string, p: nat, key: string)
  {
    p + |key| <= |s| && forall i :: 0 <= i < |key| ==> Fold(s[p + i]) == Fold(key[i])
  }

  /** Where the lazy `(.*?)` started at `i` has to stop: the first stop
      character or line terminator at or after `i`, or the end. */
  function StopFrom(s: string, i: nat, stops: set<char>): (j: nat)
    requires i <= |s|
    ensures i <= j <= |s|
    ensures forall m :: i <= m < j ==> s[m] !in stops && s[m] !in LineTerminators
    ensures j < |s| ==> s[j] in stops || s[j] in LineTerminators
    decreases |s| - i
  {
    if i == |s| || s[i] in stops || s[i] in LineTerminators then i else StopFrom(s, i + 1, stops)
  }

  /** The expression matches at `p`: the key, then a stop character before
      any line terminator. */
  predicate MatchAt(s: string, p: nat, key: string, stops: set<char>)
  {
    KeyAt(s, p, key) && StopFrom(s, p + |key|, stops) < |s| && s[StopFrom(s, p + |key|, stops)] in stops
  }

  /** The captured group of a match at `p`. */
  function MatchValue(s: string, p: nat, key: string, stops: set<char>): (v: string)
    requires MatchAt(s, p, key, stops)
    ensures forall i :: 0 <= i < |v| ==> v[i] !in stops && v[i] !in LineTerminators
    ensures p + |key| + |v| < |s| && s[p + |key| + |v|] in stops
  {
    s[p + |key|..StopFrom(s, p + |key|, stops)]
  }

  /** The search of `String.prototype.match` from position `p` on. */
  function CaptureFrom(s: string, key: string, stops: set<char>, p: nat): (r: Option<string>)
    requires p <= |s|
    decreases |s| - p
  {
    if p == |s| || p + |key| > |s| then None
    else if MatchAt(s, p, key, stops) then Some(MatchValue(s, p, key, stops))
    else CaptureFrom(s, key, stops, p + 1)
  }

  /** `s.match(/key(.*?)<stops>/i)`, its group when it matches. */
  function Capture(s: string, key: string, stops: set<char>): Option<string>
  {
    CaptureFrom(s, key, stops, 0)
  }

  /** The search from `p` finds nothing exactly when nothing matches from
      `p` on. */
  lemma {:induction false} CaptureFromNone(s: string, key: string, stops: set<char>, p: nat)
    requires p <= |s|
    ensures CaptureFrom(s, key, stops, p).None? <==> forall q: nat :: p <= q ==> !MatchAt(s, q, key, stops)
    decreases |s| - p
  {
    if p == |s| || p + |key| > |s| {
      forall q: nat | p <= q ensures !MatchAt(s, q, key, stops) {
        if KeyAt(s, q, key) {
          assert StopFrom(s, q + |key|, stops) >= |s|;
        }
      }
    } else if !MatchAt(s, p, key, stops) {
      CaptureFromNone(s, key, stops, p + 1);
    }
  }

  /** A result of the search from `p` is the group of the leftmost match
      from `p` on. */
  lemma {:induction false} CaptureFromLeftmost(s: string, key: string, stops: set<char>, p: nat)
    requires p <= |s| && CaptureFrom(s, key, stops, p).Some?
    ensures exists q: nat :: p <= q && MatchAt(s, q, key, stops)
                             && CaptureFrom(s, key, stops, p).value == MatchValue(s, q, key, stops)
                             && forall q': nat :: p <= q' < q ==> !MatchAt(s, q', key, stops)
    decreases |s| - p
  {
    if MatchAt(s, p, key, stops) {
      assert CaptureFrom(s, key, stops, p).value == MatchValue(s, p, key, stops);
    } else {
      assert CaptureFrom(s, key, stops, p) == CaptureFrom(s, key, stops, p + 1);
      CaptureFromLeftmost(s, key, stops, p + 1);
      var q: nat :| p + 1 <= q && MatchAt(s, q, key, stops)
                    && CaptureFrom(s, key, stops, p + 1).value == MatchValue(s, q, key, stops)
                    && forall q': nat :: p + 1 <= q' < q ==> !MatchAt(s, q', key, stops);
      assert forall q': nat :: p <= q' < q ==> !MatchAt(s, q', key, stops);
    }
  }

  /** `Capture` is the group of the leftmost match, and fails exactly when
      nothing matches. */
  lemma {:induction false} CaptureSpec(s: string, key: string, stops: set<char>)
    ensures var r := Capture(s, key, stops);
            && (r.None? <==> forall q: nat :: !MatchAt(s, q, key, stops))
            && (r.Some? ==> exists q: nat :: MatchAt(s, q, key, stops) && r.value == MatchValue(s, q, key, stops)
                                        && forall q': nat :: q' < q ==> !MatchAt(s, q', key, stops))
  {
    CaptureFromNone(s, key, stops, 0);
    if Capture(s, key, stops).Some? {
      CaptureFromLeftmost(s, key, stops, 0);
    }
  }

  /** A captured value never holds a stop character or a line
      terminator. */
  lemma {:induction false} CaptureClean(s: string, key: string, stops: set<char>)
    ensures var r := Capture(s, key, stops);
            r.Some? ==> forall c :: c in r.value ==> c !in stops && c !in LineTerminators
  {
    CaptureSpec(s, key, stops);
    var r := Capture(s, key, stops);
    if r.Some? {
      forall c | c in r.value ensures c !in stops && c !in LineTerminators {
        var i :| 0 <= i < |r.value| && r.value[i] == c;
      }
    }
  }

  // ---------------------------------------------------------------------
  // Capturing a known occurrence
  // ---------------------------------------------------------------------

  /** No occurrence of `key` starts before position `n`. */
  predicate NoKeyBefore(s: string, key: string, n: nat)
  {
    forall q :: 0 <= q < n ==> !KeyAt(s, q, key)
  }

  /** Position `i` of `t` shows, within `t`, a mismatch against one of the
      first three letters of `key`, case ignored. */
  predicate AvoidsAt(t: string, i: nat, key: string)
    requires i < |t| && |key| >= 3
  {
    Fold(t[i]) != Fold(key[0])
    || (i + 1 < |t| && Fold(t[i + 1]) != Fold(key[1]))
    || (i + 2 < |t| && Fold(t[i + 2]) != Fold(key[2]))
  }

  /** No occurrence of `key` starts inside `t`, whatever follows it. */
  predicate Avoids(t: string, key: string)
    requires |key| >= 3
  {
    forall i :: 0 <= i < |t| ==> AvoidsAt(t, i, key)
  }

  lemma {:induction false} AvoidsAppend(a: string, b: string, key: string)
    requires |key| >= 3 && Avoids(a, key) && Avoids(b, key)
    ensures Avoids(a + b, key)
  {
    forall i | 0 <= i < |a + b| ensures AvoidsAt(a + b, i, key) {
      if i < |a| {
        assert AvoidsAt(a, i, key);
        assert a[i] == (a + b)[i];
        if i + 1 < |a| { assert a[i + 1] == (a + b)[i + 1]; }
        if i + 2 < |a| { assert a[i + 2] == (a + b)[i + 2]; }
      } else {
        var k := i - |a|;
        assert AvoidsAt(b, k, key);
        assert b[k] == (a + b)[i];
        if k + 1 < |b| { assert b[k + 1] == (a + b)[i + 1]; }
        if k + 2 < |b| { assert b[k + 2] == (a + b)[i + 2]; }
      }
    }
  }

  /** A prefix that avoids `key` holds no occurrence of it. */
  lemma {:induction false} NoKeyInPrefix(s: string, x: string, z: string, key: string)
    requires s == x + z && |key| >= 3 && Avoids(x, key)
    ensures NoKeyBefore(s, key, |x|)
  {
    forall q | 0 <= q < |x| ensures !KeyAt(s, q, key) {
      assert AvoidsAt(x, q, key);
      assert s[q] == x[q];
      if q + 1 < |x| { assert s[q + 1] == x[q + 1]; }
      if q + 2 < |x| { assert s[q + 2] == x[q + 2]; }
    }
  }

  /** The key followed by a clean value and a stop character, with no
      earlier occurrence of the key, is captured as that value. */
  lemma {:induction false} CaptureAt(s: string, pre: string, key: string, v: string, post: string, stops: set<char>)
    requires s == pre + key + v + post && |key| > 0
    requires NoKeyBefore(s, key, |pre|)
    requires forall c :: c in v ==> c !in stops && c !in LineTerminators
    requires |post| > 0 && post[0] in stops
    ensures Capture(s, key, stops) == Some(v)
  {
    var p := |pre|;
    var k := p + |key|;
    assert KeyAt(s, p, key) by {
      forall i | 0 <= i < |key| ensures s[p + i] == key[i] { }
    }
    StopAt(s, k, v, stops);
    assert s[k + |v|] == post[0];
    assert MatchValue(s, p, key, stops) == v by {
      assert forall i :: 0 <= i < |v| ==> s[k + i] == v[i];
    }
    CaptureFromSkip(s, key, stops, 0, p);
  }

  lemma {:induction false} StopAt(s: string, k: nat, v: string, stops: set<char>)
    requires k + |v| <= |s| && forall i :: 0 <= i < |v| ==> s[k + i] == v[i]
    requires forall c :: c in v ==> c !in stops && c !in LineTerminators
    requires k + |v| < |s| && s[k + |v|] in stops
    ensures StopFrom(s, k, stops) == k + |v|
    decreases |v|
  {
    if |v| > 0 {
      assert s[k] == v[0];
      StopAt(s, k + 1, v[1..], stops);
    }
  }

  /** The search passes over positions where the key does not occur. */
  lemma {:induction false} CaptureFromSkip(s: string, key: string, stops: set<char>, p: nat, p0: nat)
    requires p <= p0 < |s| && p0 + |key| <= |s| && NoKeyBefore(s, key, p0)
    ensures CaptureFrom(s, key, stops, p) == CaptureFrom(s, key, stops, p0)
    decreases p0 - p
  {
    if p < p0 {
      assert !KeyAt(s, p, key);
      CaptureFromSkip(s, key, stops, p + 1, p0);
    }
  }

  // ---------------------------------------------------------------------
  // `split(sep)[0]`, `split(sep)[1]` and `parseInt`
  // ---------------------------------------------------------------------

  /** `s.split(sep)[0]`: the text before the first `sep`, or all of it. */
  function Upto(s: string, sep: char): (r: string)
    ensures |r| <= |s| && r == s[..|r|] && sep !in r
    ensures |r| < |s| ==> s[|r|] == sep
  {
    if |s| == 0 || s[0] == sep then [] else [s[0]] + Upto(s[1..], sep)
  }

  /** What follows the first `sep` of `s`. */
  function After(s: string, sep: char): (r: string)
    requires sep in s
    ensures s == Upto(s, sep) + [sep] + r
  {
    UptoStops(s, sep);
    s[|Upto(s, sep)| + 1..]
  }

  /** `s.split(sep)[1]` when `s` contains `sep`: the text between the first
      and the second `sep`, or to the end. */
  function Second(s: string, sep: char): (r: string)
    requires sep in s
    ensures sep !in r && exists rest :: s == Upto(s, sep) + [sep] + rest && r == Upto(rest, sep)
  {
    Upto(After(s, sep), sep)
  }

  lemma {:induction false} UptoStops(s: string, sep: char)
    requires sep in s
    ensures |Upto(s, sep)| < |s|
  {
  }

  /** The text before a separator the prefix does not contain. */
  lemma {:induction false} UptoSplit(a: string, sep: char, b: string)
    requires sep !in a
    ensures Upto(a + [sep] + b, sep) == a
    decreases |a|
  {
    if |a| > 0 {
      assert (a + [sep] + b)[1..] == a[1..] + [sep] + b;
      UptoSplit(a[1..], sep, b);
    }
  }

  lemma {:induction false} UptoWhole(a: string, sep: char)
    requires sep !in a
    ensures Upto(a, sep) == a
    decreases |a|
  {
    if |a| > 0 {
      UptoWhole(a[1..], sep);
    }
  }

  /** The value of a digit string with one more digit. */
  lemma {:induction false} DigitsSnoc(s: string, c: char)
    requires AllDigits(s) && IsDigit(c)
    ensures AllDigits(s + [c]) && DigitsValue(s + [c]) == DigitsValue(s) * 10 + DigitValue(c)
  {
    assert (s + [c])[..|s|] == s;
  }

  // ---------------------------------------------------------------------
  // parseConnectionString
  // ---------------------------------------------------------------------

  /** The object `parseConnectionString` returns; a field is absent unless
      it was set. The port is what `parseInt` gives, `NaN` included. */
  datatype ConnInfo = ConnInfo(
    hostName: Option<string>,
    port: Option<ParsedInt>,
    databases: Option<string>,
    userName: Option<string>,
    password: Option<string>)

  const NoInfo: ConnInfo := ConnInfo(None, None, None, None, None)

  /** Where the port comes from: a key of its own, or the part of the
      server value after a separator. */
  datatype PortRule = PortKey(key: string) | ServerSplit(sep: char)

  /** The extraction one group of type codes shares: the keys of the host,
      port, database, user and password, and the stop characters of the
      host, port and database captures (user and password always stop at
      `;`). */
  datatype Dialect = Dialect(
    hostKey: string,
    port: PortRule,
    dbKey: string,
    userKey: string,
    pwdKey: string,
    stops: set<char>)

  /** The one-character type code `c`. */
  predicate IsCode(dbType: string, c: char)
  {
    |dbType| == 1 && dbType[0] == c
  }

  /** The type codes the `switch` of `parseConnectionString` knows. */
  predicate Known(dbType: string)
  {
    |dbType| == 1 && '0' <= dbType[0] <= '8'
  }

  /** The extraction of each known type code. Codes `1`, `6`, `7` share
      one, as do `2`, `5` and `4`, `8`. */
  function DialectOf(dbType: string): (d: Option<Dialect>)
    ensures d.Some? <==> Known(dbType)
  {
    if IsCode(dbType, '0') then Some(Dialect("Server=", ServerSplit(':'), "Database=", "UserID=", "Password=", Semicolon))
    else if IsCode(dbType, '1') || IsCode(dbType, '6') || IsCode(dbType, '7') then
      Some(Dialect("Server=", PortKey("Port="), "Database=", "Uid=", "Pwd=", Semicolon))
    else if IsCode(dbType, '2') || IsCode(dbType, '5') then
      Some(Dialect("HOST=", PortKey("PORT="), "SERVICE_NAME=", "User Id=", "Password=", ParenOrSemicolon))
    else if IsCode(dbType, '3') then Some(Dialect("Server=", ServerSplit(','), "Database=", "User Id=", "Password=", Semicolon))
    else if IsCode(dbType, '4') || IsCode(dbType, '8') then
      Some(Dialect("Host=", PortKey("Port="), "Database=", "Username=", "Password=", Semicolon))
    else None
  }

  /** The fields one extraction sets. */
  function Extract(d: Dialect, cs: string): (r: ConnInfo)
    ensures r.hostName.Some? <==> Capture(cs, d.hostKey, d.stops).Some?
    ensures r.databases == Capture(cs, d.dbKey, d.stops)
    ensures r.userName == Capture(cs, d.userKey, Semicolon)
    ensures r.password == Capture(cs, d.pwdKey, Semicolon)
    ensures d.port.PortKey? ==> r.hostName == Capture(cs, d.hostKey, d.stops)
    ensures d.port.ServerSplit? && r.hostName.Some? ==> d.port.sep !in r.hostName.value
  {
    var server := Capture(cs, d.hostKey, d.stops);
    match d.port
    case PortKey(portKey) =>
      var port := Capture(cs, portKey, d.stops);
      ConnInfo(server, if port.Some? then Some(ParseInt(port.value)) else None,
               Capture(cs, d.dbKey, d.stops), Capture(cs, d.userKey, Semicolon), Capture(cs, d.pwdKey, Semicolon))
    case ServerSplit(sep) =>
      ConnInfo(if server.Some? then Some(Upto(server.value, sep)) else None,
               if server.Some? && sep in server.value then Some(ParseInt(Second(server.value, sep))) else None,
               Capture(cs, d.dbKey, d.stops), Capture(cs, d.userKey, Semicolon), Capture(cs, d.pwdKey, Semicolon))
  }

  /** `parseConnectionString(type, connectionString)`: the extraction of
      the type's group, or the empty object for an unknown type. */
  function ParseConnectionString(dbType: string, cs: string): (r: ConnInfo)
    ensures !Known(dbType) ==> r == NoInfo
  {
    match DialectOf(dbType)
    case None => NoInfo
    case Some(d) => Extract(d, cs)
  }

  /** What each field means: set exactly when its key matches, to the
      group of the leftmost match (for the split types, its part before
      the separator), with the port set from its own key, or from the
      server value only when that holds the separator. */
  lemma {:induction false} FieldsFromMatches(d: Dialect, cs: string)
    ensures var r := Extract(d, cs);
            && (r.hostName.Some? <==> exists p: nat :: MatchAt(cs, p, d.hostKey, d.stops))
            && (r.databases.Some? <==> exists p: nat :: MatchAt(cs, p, d.dbKey, d.stops))
            && (r.userName.Some? <==> exists p: nat :: MatchAt(cs, p, d.userKey, Semicolon))
            && (r.password.Some? <==> exists p: nat :: MatchAt(cs, p, d.pwdKey, Semicolon))
            && (d.port.PortKey? ==> (r.port.Some? <==> exists p: nat :: MatchAt(cs, p, d.port.key, d.stops)))
            && (d.port.ServerSplit? ==>
                  (r.port.Some? <==> r.hostName.Some? && d.port.sep in Capture(cs, d.hostKey, d.stops).value))
  {
    CaptureSpec(cs, d.hostKey, d.stops);
    CaptureSpec(cs, d.dbKey, d.stops);
    CaptureSpec(cs, d.userKey, Semicolon);
    CaptureSpec(cs, d.pwdKey, Semicolon);
    if d.port.PortKey? {
      CaptureSpec(cs, d.port.key, d.stops);
    }
  }

  /** For the split types the host is the server value up to the
      separator, and the port, when set, is `parseInt` of the next
      separated part. */
  lemma {:induction false} SplitServerFields(d: Dialect, cs: string)
    requires d.port.ServerSplit?
    ensures var sep := d.port.sep;
            var server := Capture(cs, d.hostKey, d.stops);
            var r := Extract(d, cs);
            && (r.hostName.Some? ==> server.Some? && r.hostName.value == server.value[..|r.hostName.value|]
                                     && sep !in r.hostName.value)
            && (r.port.Some? ==> exists rest :: server.value == r.hostName.value + [sep] + rest
                                                && r.port.value == ParseInt(Upto(rest, sep)))
  {
    var sep := d.port.sep;
    var server := Capture(cs, d.hostKey, d.stops);
    var r := Extract(d, cs);
    if server.Some? {
      assert r.hostName == Some(Upto(server.value, sep));
      if sep in server.value {
        assert r.port == Some(ParseInt(Second(server.value, sep)));
      }
    }
  }

  /** Codes of one group parse every string alike. */
  lemma {:induction false} GroupsAgree(cs: string)
    ensures ParseConnectionString("1", cs) == ParseConnectionString("6", cs) == ParseConnectionString("7", cs)
    ensures ParseConnectionString("2", cs) == ParseConnectionString("5", cs)
    ensures ParseConnectionString("4", cs) == ParseConnectionString("8", cs)
  {
    assert DialectOf("1") == DialectOf("6") == DialectOf("7");
    assert DialectOf("2") == DialectOf("5");
    assert DialectOf("4") == DialectOf("8");
  }

  // ---------------------------------------------------------------------
  // Templates
  // ---------------------------------------------------------------------

  /** The concatenation of `parts`. */
  function Concat(parts: seq<string>): (r: string)
    ensures |parts| > 0 ==> |r| >= |parts[|parts| - 1]|
  {
    if |parts| == 0 then [] else Concat(parts[..|parts| - 1]) + parts[|parts| - 1]
  }

  /** `parts` holds the same strings as `model`, position by position. */
  predicate Like(parts: seq<string>, model: seq<string>)
  {
    |parts| == |model| && forall i :: 0 <= i < |model| ==> parts[i] == model[i]
  }

  /** The entries of `connectionStringTemplates`, cut at every key and
      value; codes `5`, `6`, `7` and `8` repeat those of `2`, `1`, `1` and
      `4`. */
  const Parts0: seq<string> := ["Server=", "127.0.0.1:30015", ";", "Database=", "myDB", ";",
                                "UserID=", "system", ";", "Password=", "Pwd@123", ";"]
  const Parts1: seq<string> := ["Server=", "127.0.0.1", ";", "Database=", "myDB", ";", "Uid=", "root", ";",
                                "Pwd=", "Pwd@123", ";", "Port=", "3306", ";"]
  const Parts2: seq<string> := ["Data Source=", "(DESCRIPTION=", "(ADDRESS=", "(PROTOCOL=TCP)", "(",
                                "HOST=", "127.0.0.1", ")(", "PORT=", "1521", "))", "(CONNECT_DATA=(",
                                "SERVICE_NAME=", "myDB", ")));", "User Id=", "sys", ";", "Password=", "Pwd@123", ";"]
  const Parts3: seq<string> := ["Server=", "127.0.0.1", ";", "Database=", "myDB", ";", "User Id=", "sa", ";",
                                "Password=", "Pwd@123", ";"]
  const Parts4: seq<string> := ["Host=", "127.0.0.1", ";", "Database=", "myDB", ";", "Username=", "postgres", ";",
                                "Password=", "Pwd@123", ";", "Port=", "5432", ";"]

  /** `connectionStringTemplates`, by type code. */
  const TemplateByCode: map<char, string> := map[
    '0' := Concat(Parts0), '1' := Concat(Parts1), '2' := Concat(Parts2), '3' := Concat(Parts3),
    '4' := Concat(Parts4), '5' := Concat(Parts2), '6' := Concat(Parts1), '7' := Concat(Parts1),
    '8' := Concat(Parts4)
  ]

  /** `generateConnectionStringByType`: the connection string it stores,
      the template of a known type and the empty string otherwise. */
  function GenerateConnectionString(dbType: string): (r: string)
    ensures r != "" <==> Known(dbType)
    ensures Known(dbType) ==> r == TemplateByCode[dbType[0]]
  {
    if |dbType| == 1 && dbType[0] in TemplateByCode && TemplateByCode[dbType[0]] != "" then TemplateByCode[dbType[0]]
    else ""
  }

  // ---------------------------------------------------------------------
  // Reading the templates back
  // ---------------------------------------------------------------------

  /** `Concat` of a sequence is `Concat` of a prefix followed by `Concat`
      of the rest. */
  lemma {:induction false} ConcatSplit(parts: seq<string>, n: nat)
    requires n <= |parts|
    ensures Concat(parts) == Concat(parts[..n]) + Concat(parts[n..])
    decreases |parts|
  {
    if n < |parts| {
      var m := |parts| - 1;
      ConcatSplit(parts[..m], n);
      assert parts[..m][..n] == parts[..n];
      assert parts[n..][..|parts[n..]| - 1] == parts[..m][n..];
    } else {
      assert parts[..n] == parts;
      assert Concat(parts[n..]) == [];
    }
  }

  /** Every part avoids `key`, so their concatenation does. */
  lemma {:induction false} ConcatAvoids(parts: seq<string>, key: string)
    requires |key| >= 3 && forall m :: 0 <= m < |parts| ==> Avoids(parts[m], key)
    ensures Avoids(Concat(parts), key)
    decreases |parts|
  {
    if |parts| > 0 {
      var m := |parts| - 1;
      ConcatAvoids(parts[..m], key);
      AvoidsAppend(Concat(parts[..m]), parts[m], key);
    }
  }

  /** In a string cut into parts, a key part `k` is captured as the part
      after it when that value is clean, the part after the value begins
      with a stop character, and no earlier part lets an occurrence of the
      key begin. */
  lemma {:induction false} CapturePart(parts: seq<string>, k: nat, stops: set<char>)
    requires k + 2 < |parts| && |parts[k]| >= 3
    requires forall m :: 0 <= m < k ==> Avoids(parts[m], parts[k])
    requires forall c :: c in parts[k + 1] ==> c !in stops && c !in LineTerminators
    requires |parts[k + 2]| > 0 && parts[k + 2][0] in stops
    ensures Capture(Concat(parts), parts[k], stops) == Some(parts[k + 1])
  {
    var key, v := parts[k], parts[k + 1];
    var x := Concat(parts[..k]);
    var post := Concat(parts[k + 2..]);
    ConcatSplit(parts, k + 2);
    ConcatSplit(parts[..k + 2], k);
    assert parts[..k + 2][..k] == parts[..k];
    assert parts[..k + 2][k..] == [key, v];
    assert Concat([key, v]) == key + v by {
      assert [key, v][..1] == [key];
      assert [key][..0] == [];
      assert Concat([key]) == key;
    }
    ConcatSplit(parts[k + 2..], 1);
    assert parts[k + 2..][..1] == [parts[k + 2]];
    assert [parts[k + 2]][..0] == [];
    assert post[0] == parts[k + 2][0];
    ConcatAvoids(parts[..k], key);
    NoKeyInPrefix(Concat(parts), x, key + v + post, key);
    CaptureAt(Concat(parts), x, key, v, post, stops);
  }

  /** The value of a digit string, digit by digit from the left. */
  lemma {:induction false} DigitsPrefix(s: string, n: nat)
    requires AllDigits(s) && 0 < n <= |s|
    ensures DigitsValue(s[..n]) == DigitsValue(s[..n - 1]) * 10 + DigitValue(s[n - 1])
  {
    assert s[..n][..n - 1] == s[..n - 1];
  }

  /** `parseInt` of a four-digit string. */
  lemma {:induction false} FourDigits(s: string)
    requires |s| == 4 && AllDigits(s)
    ensures ParseInt(s) == Int(DigitValue(s[0]) * 1000 + DigitValue(s[1]) * 100 + DigitValue(s[2]) * 10 + DigitValue(s[3]))
  {
    assert s[..0] == [];
    DigitsPrefix(s, 1);
    DigitsPrefix(s, 2);
    DigitsPrefix(s, 3);
    DigitsPrefix(s, 4);
    assert s[..4] == s;
    ParseIntDigits(s);
  }

  /** `parseInt` of a five-digit string. */
  lemma {:induction false} FiveDigits(s: string)
    requires |s| == 5 && AllDigits(s)
    ensures ParseInt(s) == Int(DigitValue(s[0]) * 10000 + DigitValue(s[1]) * 1000 + DigitValue(s[2]) * 100
                               + DigitValue(s[3]) * 10 + DigitValue(s[4]))
  {
    assert s[..0] == [];
    DigitsPrefix(s, 1);
    DigitsPrefix(s, 2);
    DigitsPrefix(s, 3);
    DigitsPrefix(s, 4);
    DigitsPrefix(s, 5);
    assert s[..5] == s;
    ParseIntDigits(s);
  }

  /** A part without the key's first letter, in either case, avoids the
      key. */
  lemma {:induction false} LacksAvoids(t: string, key: string, lo: char)
    requires |key| >= 3 && 'a' <= lo <= 'z' && key[0] as int == lo as int - 32
    requires forall c :: c in t ==> c != lo && c != key[0]
    ensures Avoids(t, key)
  {
    forall i | 0 <= i < |t| ensures AvoidsAt(t, i, key) {
      assert t[i] in t;
    }
  }

  /** A part whose only occurrence of the key's first letter, `h`, is
      followed by a mismatch within the part avoids the key. */
  lemma {:induction false} AvoidsJoin(t: string, x: string, h: char, y: string, key: string, lo: char)
    requires t == x + [h] + y && |key| >= 3 && 'a' <= lo <= 'z' && key[0] as int == lo as int - 32
    requires forall c :: c in x ==> c != lo && c != key[0]
    requires Avoids(y, key) && |y| > 0 && (Fold(y[0]) != Fold(key[1]) || (|y| > 1 && Fold(y[1]) != Fold(key[2])))
    ensures Avoids(t, key)
  {
    LacksAvoids(x, key, lo);
    var hy := [h] + y;
    forall i | 0 <= i < |hy| ensures AvoidsAt(hy, i, key) {
      if i > 0 {
        assert AvoidsAt(y, i - 1, key);
        assert hy[i] == y[i - 1];
        if i + 1 < |hy| { assert hy[i + 1] == y[i]; }
        if i + 2 < |hy| { assert hy[i + 2] == y[i + 1]; }
      }
    }
    AvoidsAppend(x, hy, key);
    assert t == x + hy;
  }

  // Which parts avoid which keys. Each fact is a literal with no
  // all-inputs content; they are kept one small lemma per key so that
  // every one stays cheap for the solver.

  lemma AvoidsDatabase1()
    ensures Avoids("Server=", "Database=")
    ensures Avoids("127.0.0.1:30015", "Database=")
    ensures Avoids(";", "Database=")
  {
    LacksAvoids("Server=", "Database=", 'd');
    LacksAvoids("127.0.0.1:30015", "Database=", 'd');
    LacksAvoids(";", "Database=", 'd');
  }

  lemma AvoidsDatabase2()
    ensures Avoids("127.0.0.1", "Database=")
    ensures Avoids("Host=", "Database=")
  {
    LacksAvoids("127.0.0.1", "Database=", 'd');
    LacksAvoids("Host=", "Database=", 'd');
  }

  lemma AvoidsUserID1()
    ensures Avoids("Server=", "UserID=")
    ensures Avoids("127.0.0.1:30015", "UserID=")
    ensures Avoids(";", "UserID=")
  {
    LacksAvoids("Server=", "UserID=", 'u');
    LacksAvoids("127.0.0.1:30015", "UserID=", 'u');
    LacksAvoids(";", "UserID=", 'u');
  }

  lemma AvoidsUserID2()
    ensures Avoids("Database=", "UserID=")
    ensures Avoids("myDB", "UserID=")
  {
    LacksAvoids("Database=", "UserID=", 'u');
    LacksAvoids("myDB", "UserID=", 'u');
  }

  lemma AvoidsPassword1()
    ensures Avoids("Server=", "Password=")
    ensures Avoids("127.0.0.1:30015", "Password=")
    ensures Avoids(";", "Password=")
  {
    LacksAvoids("Server=", "Password=", 'p');
    LacksAvoids("127.0.0.1:30015", "Password=", 'p');
    LacksAvoids(";", "Password=", 'p');
  }

  lemma AvoidsPassword2()
    ensures Avoids("Database=", "Password=")
    ensures Avoids("myDB", "Password=")
    ensures Avoids("UserID=", "Password=")
    ensures Avoids("system", "Password=")
  {
    LacksAvoids("Database=", "Password=", 'p');
    LacksAvoids("myDB", "Password=", 'p');
    LacksAvoids("UserID=", "Password=", 'p');
    LacksAvoids("system", "Password=", 'p');
  }

  lemma AvoidsPassword3()
    ensures Avoids("Data Source=", "Password=")
    ensures Avoids("(DESCRIPTION=", "Password=")
  {
    LacksAvoids("Data Source=", "Password=", 'p');
    LacksAvoids("TION=", "Password=", 'p');
    AvoidsJoin("(DESCRIPTION=", "(DESCRI", 'P', "TION=", "Password=", 'p');
  }

  lemma AvoidsPassword4()
    ensures Avoids("(ADDRESS=", "Password=")
    ensures Avoids("(PROTOCOL=TCP)", "Password=")
    ensures Avoids("(", "Password=")
  {
    LacksAvoids("(ADDRESS=", "Password=", 'p');
    LacksAvoids(")", "Password=", 'p');
    AvoidsJoin("ROTOCOL=TCP)", "ROTOCOL=TC", 'P', ")", "Password=", 'p');
    AvoidsJoin("(PROTOCOL=TCP)", "(", 'P', "ROTOCOL=TCP)", "Password=", 'p');
    LacksAvoids("(", "Password=", 'p');
  }

  lemma AvoidsPassword5()
    ensures Avoids("HOST=", "Password=")
    ensures Avoids("127.0.0.1", "Password=")
    ensures Avoids(")(", "Password=")
    ensures Avoids("PORT=", "Password=")
    ensures Avoids("1521", "Password=")
    ensures Avoids("))", "Password=")
  {
    LacksAvoids("HOST=", "Password=", 'p');
    LacksAvoids("127.0.0.1", "Password=", 'p');
    LacksAvoids(")(", "Password=", 'p');
    LacksAvoids("ORT=", "Password=", 'p');
    AvoidsJoin("PORT=", "", 'P', "ORT=", "Password=", 'p');
    LacksAvoids("1521", "Password=", 'p');
    LacksAvoids("))", "Password=", 'p');
  }

  lemma AvoidsPassword6()
    ensures Avoids("(CONNECT_DATA=(", "Password=")
  {
    LacksAvoids("(CONNECT_DATA=(", "Password=", 'p');
  }

  lemma AvoidsPassword7()
    ensures Avoids("SERVICE_NAME=", "Password=")
    ensures Avoids(")));", "Password=")
    ensures Avoids("User Id=", "Password=")
    ensures Avoids("sys", "Password=")
  {
    LacksAvoids("SERVICE_NAME=", "Password=", 'p');
    LacksAvoids(")));", "Password=", 'p');
    LacksAvoids("User Id=", "Password=", 'p');
    LacksAvoids("sys", "Password=", 'p');
  }

  lemma AvoidsPassword8()
    ensures Avoids("sa", "Password=")
    ensures Avoids("Host=", "Password=")
    ensures Avoids("Username=", "Password=")
    ensures Avoids("postgres", "Password=")
  {
    LacksAvoids("sa", "Password=", 'p');
    LacksAvoids("Host=", "Password=", 'p');
    LacksAvoids("Username=", "Password=", 'p');
    LacksAvoids("ostgres", "Password=", 'p');
    AvoidsJoin("postgres", "", 'p', "ostgres", "Password=", 'p');
  }

  lemma AvoidsUid1()
    ensures Avoids("Server=", "Uid=")
    ensures Avoids("127.0.0.1", "Uid=")
    ensures Avoids(";", "Uid=")
    ensures Avoids("Database=", "Uid=")
    ensures Avoids("myDB", "Uid=")
  {
    LacksAvoids("Server=", "Uid=", 'u');
    LacksAvoids("127.0.0.1", "Uid=", 'u');
    LacksAvoids(";", "Uid=", 'u');
    LacksAvoids("Database=", "Uid=", 'u');
    LacksAvoids("myDB", "Uid=", 'u');
  }

  lemma AvoidsPwd1()
    ensures Avoids("Server=", "Pwd=")
    ensures Avoids("127.0.0.1", "Pwd=")
    ensures Avoids(";", "Pwd=")
    ensures Avoids("Database=", "Pwd=")
    ensures Avoids("myDB", "Pwd=")
  {
    LacksAvoids("Server=", "Pwd=", 'p');
    LacksAvoids("127.0.0.1", "Pwd=", 'p');
    LacksAvoids(";", "Pwd=", 'p');
    LacksAvoids("Database=", "Pwd=", 'p');
    LacksAvoids("myDB", "Pwd=", 'p');
  }

  lemma AvoidsPwd2()
    ensures Avoids("Uid=", "Pwd=")
    ensures Avoids("root", "Pwd=")
  {
    LacksAvoids("Uid=", "Pwd=", 'p');
    LacksAvoids("root", "Pwd=", 'p');
  }

  lemma AvoidsPort1()
    ensures Avoids("Server=", "Port=")
    ensures Avoids("127.0.0.1", "Port=")
    ensures Avoids(";", "Port=")
    ensures Avoids("Database=", "Port=")
    ensures Avoids("myDB", "Port=")
  {
    LacksAvoids("Server=", "Port=", 'p');
    LacksAvoids("127.0.0.1", "Port=", 'p');
    LacksAvoids(";", "Port=", 'p');
    LacksAvoids("Database=", "Port=", 'p');
    LacksAvoids("myDB", "Port=", 'p');
  }

  lemma AvoidsPort2()
    ensures Avoids("Uid=", "Port=")
    ensures Avoids("root", "Port=")
    ensures Avoids("Pwd=", "Port=")
    ensures Avoids("Pwd@123", "Port=")
    ensures Avoids("Host=", "Port=")
    ensures Avoids("Username=", "Port=")
  {
    LacksAvoids("Uid=", "Port=", 'p');
    LacksAvoids("root", "Port=", 'p');
    LacksAvoids("wd=", "Port=", 'p');
    AvoidsJoin("Pwd=", "", 'P', "wd=", "Port=", 'p');
    LacksAvoids("wd@123", "Port=", 'p');
    AvoidsJoin("Pwd@123", "", 'P', "wd@123", "Port=", 'p');
    LacksAvoids("Host=", "Port=", 'p');
    LacksAvoids("Username=", "Port=", 'p');
  }

  lemma AvoidsPort3()
    ensures Avoids("postgres", "Port=")
    ensures Avoids("Password=", "Port=")
  {
    LacksAvoids("ostgres", "Port=", 'p');
    AvoidsJoin("postgres", "", 'p', "ostgres", "Port=", 'p');
    LacksAvoids("assword=", "Port=", 'p');
    AvoidsJoin("Password=", "", 'P', "assword=", "Port=", 'p');
  }

  lemma AvoidsHOST1()
    ensures Avoids("Data Source=", "HOST=")
    ensures Avoids("(DESCRIPTION=", "HOST=")
  {
    LacksAvoids("Data Source=", "HOST=", 'h');
    LacksAvoids("(DESCRIPTION=", "HOST=", 'h');
  }

  lemma AvoidsHOST2()
    ensures Avoids("(ADDRESS=", "HOST=")
    ensures Avoids("(PROTOCOL=TCP)", "HOST=")
    ensures Avoids("(", "HOST=")
  {
    LacksAvoids("(ADDRESS=", "HOST=", 'h');
    LacksAvoids("(PROTOCOL=TCP)", "HOST=", 'h');
    LacksAvoids("(", "HOST=", 'h');
  }

  lemma AvoidsSERVICENAME1()
    ensures Avoids("Data Source=", "SERVICE_NAME=")
    ensures Avoids("(DESCRIPTION=", "SERVICE_NAME=")
  {
    LacksAvoids("ource=", "SERVICE_NAME=", 's');
    AvoidsJoin("Data Source=", "Data ", 'S', "ource=", "SERVICE_NAME=", 's');
    LacksAvoids("CRIPTION=", "SERVICE_NAME=", 's');
    AvoidsJoin("(DESCRIPTION=", "(DE", 'S', "CRIPTION=", "SERVICE_NAME=", 's');
  }

  lemma AvoidsSERVICENAME2()
    ensures Avoids("(ADDRESS=", "SERVICE_NAME=")
    ensures Avoids("(PROTOCOL=TCP)", "SERVICE_NAME=")
    ensures Avoids("(", "SERVICE_NAME=")
  {
    LacksAvoids("=", "SERVICE_NAME=", 's');
    AvoidsJoin("S=", "", 'S', "=", "SERVICE_NAME=", 's');
    AvoidsJoin("(ADDRESS=", "(ADDRE", 'S', "S=", "SERVICE_NAME=", 's');
    LacksAvoids("(PROTOCOL=TCP)", "SERVICE_NAME=", 's');
    LacksAvoids("(", "SERVICE_NAME=", 's');
  }

  lemma AvoidsSERVICENAME3()
    ensures Avoids("HOST=", "SERVICE_NAME=")
    ensures Avoids("127.0.0.1", "SERVICE_NAME=")
    ensures Avoids(")(", "SERVICE_NAME=")
    ensures Avoids("PORT=", "SERVICE_NAME=")
    ensures Avoids("1521", "SERVICE_NAME=")
    ensures Avoids("))", "SERVICE_NAME=")
  {
    LacksAvoids("T=", "SERVICE_NAME=", 's');
    AvoidsJoin("HOST=", "HO", 'S', "T=", "SERVICE_NAME=", 's');
    LacksAvoids("127.0.0.1", "SERVICE_NAME=", 's');
    LacksAvoids(")(", "SERVICE_NAME=", 's');
    LacksAvoids("PORT=", "SERVICE_NAME=", 's');
    LacksAvoids("1521", "SERVICE_NAME=", 's');
    LacksAvoids("))", "SERVICE_NAME=", 's');
  }

  lemma AvoidsSERVICENAME4()
    ensures Avoids("(CONNECT_DATA=(", "SERVICE_NAME=")
  {
    LacksAvoids("(CONNECT_DATA=(", "SERVICE_NAME=", 's');
  }

  lemma AvoidsUserId1()
    ensures Avoids("Data Source=", "User Id=")
    ensures Avoids("(DESCRIPTION=", "User Id=")
  {
    LacksAvoids("rce=", "User Id=", 'u');
    AvoidsJoin("Data Source=", "Data So", 'u', "rce=", "User Id=", 'u');
    LacksAvoids("(DESCRIPTION=", "User Id=", 'u');
  }

  lemma AvoidsUserId2()
    ensures Avoids("(ADDRESS=", "User Id=")
    ensures Avoids("(PROTOCOL=TCP)", "User Id=")
    ensures Avoids("(", "User Id=")
  {
    LacksAvoids("(ADDRESS=", "User Id=", 'u');
    LacksAvoids("(PROTOCOL=TCP)", "User Id=", 'u');
    LacksAvoids("(", "User Id=", 'u');
  }

  lemma AvoidsUserId3()
    ensures Avoids("HOST=", "User Id=")
    ensures Avoids("127.0.0.1", "User Id=")
    ensures Avoids(")(", "User Id=")
    ensures Avoids("PORT=", "User Id=")
    ensures Avoids("1521", "User Id=")
    ensures Avoids("))", "User Id=")
  {
    LacksAvoids("HOST=", "User Id=", 'u');
    LacksAvoids("127.0.0.1", "User Id=", 'u');
    LacksAvoids(")(", "User Id=", 'u');
    LacksAvoids("PORT=", "User Id=", 'u');
    LacksAvoids("1521", "User Id=", 'u');
    LacksAvoids("))", "User Id=", 'u');
  }

  lemma AvoidsUserId4()
    ensures Avoids("(CONNECT_DATA=(", "User Id=")
  {
    LacksAvoids("(CONNECT_DATA=(", "User Id=", 'u');
  }

  lemma AvoidsUserId5()
    ensures Avoids("SERVICE_NAME=", "User Id=")
    ensures Avoids("myDB", "User Id=")
    ensures Avoids(")));", "User Id=")
    ensures Avoids("Server=", "User Id=")
  {
    LacksAvoids("SERVICE_NAME=", "User Id=", 'u');
    LacksAvoids("myDB", "User Id=", 'u');
    LacksAvoids(")));", "User Id=", 'u');
    LacksAvoids("Server=", "User Id=", 'u');
  }

  lemma AvoidsUserId6()
    ensures Avoids(";", "User Id=")
    ensures Avoids("Database=", "User Id=")
  {
    LacksAvoids(";", "User Id=", 'u');
    LacksAvoids("Database=", "User Id=", 'u');
  }

  lemma AvoidsPORT1()
    ensures Avoids("Data Source=", "PORT=")
    ensures Avoids("(DESCRIPTION=", "PORT=")
  {
    LacksAvoids("Data Source=", "PORT=", 'p');
    LacksAvoids("TION=", "PORT=", 'p');
    AvoidsJoin("(DESCRIPTION=", "(DESCRI", 'P', "TION=", "PORT=", 'p');
  }

  lemma AvoidsPORT2()
    ensures Avoids("(ADDRESS=", "PORT=")
    ensures Avoids("(PROTOCOL=TCP)", "PORT=")
    ensures Avoids("(", "PORT=")
  {
    LacksAvoids("(ADDRESS=", "PORT=", 'p');
    LacksAvoids(")", "PORT=", 'p');
    AvoidsJoin("ROTOCOL=TCP)", "ROTOCOL=TC", 'P', ")", "PORT=", 'p');
    AvoidsJoin("(PROTOCOL=TCP)", "(", 'P', "ROTOCOL=TCP)", "PORT=", 'p');
    LacksAvoids("(", "PORT=", 'p');
  }

  lemma AvoidsPORT3()
    ensures Avoids("HOST=", "PORT=")
    ensures Avoids("127.0.0.1", "PORT=")
    ensures Avoids(")(", "PORT=")
  {
    LacksAvoids("HOST=", "PORT=", 'p');
    LacksAvoids("127.0.0.1", "PORT=", 'p');
    LacksAvoids(")(", "PORT=", 'p');
  }

  lemma AvoidsUsername1()
    ensures Avoids("Host=", "Username=")
    ensures Avoids("127.0.0.1", "Username=")
    ensures Avoids(";", "Username=")
    ensures Avoids("Database=", "Username=")
    ensures Avoids("myDB", "Username=")
  {
    LacksAvoids("Host=", "Username=", 'u');
    LacksAvoids("127.0.0.1", "Username=", 'u');
    LacksAvoids(";", "Username=", 'u');
    LacksAvoids("Database=", "Username=", 'u');
    LacksAvoids("myDB", "Username=", 'u');
  }

  // The capture of each key of each template.

  lemma Template0Host(parts: seq<string>)
    requires Like(parts, Parts0)
    ensures Capture(Concat(parts), "Server=", Semicolon) == Some("127.0.0.1:30015")
  {
    assert ';' in Semicolon;
    CapturePart(parts, 0, Semicolon);
  }

  lemma Template0Database(parts: seq<string>)
    requires Like(parts, Parts0)
    ensures Capture(Concat(parts), "Database=", Semicolon) == Some("myDB")
  {
    assert ';' in Semicolon;
    AvoidsDatabase1();
    AvoidsDatabase2();
    CapturePart(parts, 3, Semicolon);
  }

  lemma Template0User(parts: seq<string>)
    requires Like(parts, Parts0)
    ensures Capture(Concat(parts), "UserID=", Semicolon) == Some("system")
  {
    assert ';' in Semicolon;
    AvoidsUserID1();
    AvoidsUserID2();
    CapturePart(parts, 6, Semicolon);
  }

  lemma Template0Password(parts: seq<string>)
    requires Like(parts, Parts0)
    ensures Capture(Concat(parts), "Password=", Semicolon) == Some("Pwd@123")
  {
    assert ';' in Semicolon;
    AvoidsPassword1();
    AvoidsPassword2();
    AvoidsPassword3();
    AvoidsPassword4();
    AvoidsPassword5();
    AvoidsPassword6();
    AvoidsPassword7();
    AvoidsPassword8();
    CapturePart(parts, 9, Semicolon);
  }

  lemma Template1Host(parts: seq<string>)
    requires Like(parts, Parts1)
    ensures Capture(Concat(parts), "Server=", Semicolon) == Some("127.0.0.1")
  {
    assert ';' in Semicolon;
    CapturePart(parts, 0, Semicolon);
  }

  lemma Template1Database(parts: seq<string>)
    requires Like(parts, Parts1)
    ensures Capture(Concat(parts), "Database=", Semicolon) == Some("myDB")
  {
    assert ';' in Semicolon;
    AvoidsDatabase1();
    AvoidsDatabase2();
    CapturePart(parts, 3, Semicolon);
  }

  lemma Template1User(parts: seq<string>)
    requires Like(parts, Parts1)
    ensures Capture(Concat(parts), "Uid=", Semicolon) == Some("root")
  {
    assert ';' in Semicolon;
    AvoidsUid1();
    CapturePart(parts, 6, Semicolon);
  }

  lemma Template1Password(parts: seq<string>)
    requires Like(parts, Parts1)
    ensures Capture(Concat(parts), "Pwd=", Semicolon) == Some("Pwd@123")
  {
    assert ';' in Semicolon;
    AvoidsPwd1();
    AvoidsPwd2();
    CapturePart(parts, 9, Semicolon);
  }

  lemma Template1Port(parts: seq<string>)
    requires Like(parts, Parts1)
    ensures Capture(Concat(parts), "Port=", Semicolon) == Some("3306")
  {
    assert ';' in Semicolon;
    AvoidsPort1();
    AvoidsPort2();
    AvoidsPort3();
    CapturePart(parts, 12, Semicolon);
  }

  lemma Template2Host(parts: seq<string>)
    requires Like(parts, Parts2)
    ensures Capture(Concat(parts), "HOST=", ParenOrSemicolon) == Some("127.0.0.1")
  {
    assert ')' in ParenOrSemicolon;
    AvoidsHOST1();
    AvoidsHOST2();
    CapturePart(parts, 5, ParenOrSemicolon);
  }

  lemma Template2Database(parts: seq<string>)
    requires Like(parts, Parts2)
    ensures Capture(Concat(parts), "SERVICE_NAME=", ParenOrSemicolon) == Some("myDB")
  {
    assert ')' in ParenOrSemicolon;
    AvoidsSERVICENAME1();
    AvoidsSERVICENAME2();
    AvoidsSERVICENAME3();
    AvoidsSERVICENAME4();
    CapturePart(parts, 12, ParenOrSemicolon);
  }

  lemma Template2User(parts: seq<string>)
    requires Like(parts, Parts2)
    ensures Capture(Concat(parts), "User Id=", Semicolon) == Some("sys")
  {
    assert ';' in Semicolon;
    AvoidsUserId1();
    AvoidsUserId2();
    AvoidsUserId3();
    AvoidsUserId4();
    AvoidsUserId5();
    AvoidsUserId6();
    CapturePart(parts, 15, Semicolon);
  }

  lemma Template2Password(parts: seq<string>)
    requires Like(parts, Parts2)
    ensures Capture(Concat(parts), "Password=", Semicolon) == Some("Pwd@123")
  {
    assert ';' in Semicolon;
    AvoidsPassword1();
    AvoidsPassword2();
    AvoidsPassword3();
    AvoidsPassword4();
    AvoidsPassword5();
    AvoidsPassword6();
    AvoidsPassword7();
    AvoidsPassword8();
    CapturePart(parts, 18, Semicolon);
  }

  lemma Template2Port(parts: seq<string>)
    requires Like(parts, Parts2)
    ensures Capture(Concat(parts), "PORT=", ParenOrSemicolon) == Some("1521")
  {
    assert ')' in ParenOrSemicolon;
    AvoidsPORT1();
    AvoidsPORT2();
    AvoidsPORT3();
    CapturePart(parts, 8, ParenOrSemicolon);
  }

  lemma Template3Host(parts: seq<string>)
    requires Like(parts, Parts3)
    ensures Capture(Concat(parts), "Server=", Semicolon) == Some("127.0.0.1")
  {
    assert ';' in Semicolon;
    CapturePart(parts, 0, Semicolon);
  }

  lemma Template3Database(parts: seq<string>)
    requires Like(parts, Parts3)
    ensures Capture(Concat(parts), "Database=", Semicolon) == Some("myDB")
  {
    assert ';' in Semicolon;
    AvoidsDatabase1();
    AvoidsDatabase2();
    CapturePart(parts, 3, Semicolon);
  }

  lemma Template3User(parts: seq<string>)
    requires Like(parts, Parts3)
    ensures Capture(Concat(parts), "User Id=", Semicolon) == Some("sa")
  {
    assert ';' in Semicolon;
    AvoidsUserId1();
    AvoidsUserId2();
    AvoidsUserId3();
    AvoidsUserId4();
    AvoidsUserId5();
    AvoidsUserId6();
    CapturePart(parts, 6, Semicolon);
  }

  lemma Template3Password(parts: seq<string>)
    requires Like(parts, Parts3)
    ensures Capture(Concat(parts), "Password=", Semicolon) == Some("Pwd@123")
  {
    assert ';' in Semicolon;
    AvoidsPassword1();
    AvoidsPassword2();
    AvoidsPassword3();
    AvoidsPassword4();
    AvoidsPassword5();
    AvoidsPassword6();
    AvoidsPassword7();
    AvoidsPassword8();
    CapturePart(parts, 9, Semicolon);
  }

  lemma Template4Host(parts: seq<string>)
    requires Like(parts, Parts4)
    ensures Capture(Concat(parts), "Host=", Semicolon) == Some("127.0.0.1")
  {
    assert ';' in Semicolon;
    CapturePart(parts, 0, Semicolon);
  }

  lemma Template4Database(parts: seq<string>)
    requires Like(parts, Parts4)
    ensures Capture(Concat(parts), "Database=", Semicolon) == Some("myDB")
  {
    assert ';' in Semicolon;
    AvoidsDatabase1();
    AvoidsDatabase2();
    CapturePart(parts, 3, Semicolon);
  }

  lemma Template4User(parts: seq<string>)
    requires Like(parts, Parts4)
    ensures Capture(Concat(parts), "Username=", Semicolon) == Some("postgres")
  {
    assert ';' in Semicolon;
    AvoidsUsername1();
    CapturePart(parts, 6, Semicolon);
  }

  lemma Template4Password(parts: seq<string>)
    requires Like(parts, Parts4)
    ensures Capture(Concat(parts), "Password=", Semicolon) == Some("Pwd@123")
  {
    assert ';' in Semicolon;
    AvoidsPassword1();
    AvoidsPassword2();
    AvoidsPassword3();
    AvoidsPassword4();
    AvoidsPassword5();
    AvoidsPassword6();
    AvoidsPassword7();
    AvoidsPassword8();
    CapturePart(parts, 9, Semicolon);
  }

  lemma Template4Port(parts: seq<string>)
    requires Like(parts, Parts4)
    ensures Capture(Concat(parts), "Port=", Semicolon) == Some("5432")
  {
    assert ';' in Semicolon;
    AvoidsPort1();
    AvoidsPort2();
    AvoidsPort3();
    CapturePart(parts, 12, Semicolon);
  }

  // Reading each template back.

  /** With a port key of its own, a connection string whose keys capture
      the given values parses to them, the port through `parseInt`. */
  lemma ExtractKeyed(d: Dialect, cs: string, host: string, port: string, db: string, user: string, pwd: string)
    requires d.port.PortKey?
    requires Capture(cs, d.hostKey, d.stops) == Some(host) && Capture(cs, d.port.key, d.stops) == Some(port)
    requires Capture(cs, d.dbKey, d.stops) == Some(db)
    requires Capture(cs, d.userKey, Semicolon) == Some(user) && Capture(cs, d.pwdKey, Semicolon) == Some(pwd)
    ensures Extract(d, cs) == ConnInfo(Some(host), Some(ParseInt(port)), Some(db), Some(user), Some(pwd))
  {
  }

  /** Splitting `a`, separator, `b` on the separator, where neither side
      holds it, gives back `a` first and `b` second. */
  lemma SplitOnce(a: string, sep: char, b: string)
    requires sep !in a && sep !in b
    ensures Upto(a + [sep] + b, sep) == a
    ensures sep in a + [sep] + b && Second(a + [sep] + b, sep) == b
  {
    var s := a + [sep] + b;
    UptoSplit(a, sep, b);
    assert s[|a|] == sep;
    var r := After(s, sep);
    assert r == s[|a| + 1..] == b;
    UptoWhole(b, sep);
  }

  /** With the port inside the server value, a server value `host`,
      separator, `port` parses to that host and port. */
  lemma ExtractSplitPort(d: Dialect, cs: string, host: string, port: string, db: string, user: string, pwd: string)
    requires d.port.ServerSplit? && d.port.sep !in host && d.port.sep !in port
    requires Capture(cs, d.hostKey, d.stops) == Some(host + [d.port.sep] + port)
    requires Capture(cs, d.dbKey, d.stops) == Some(db)
    requires Capture(cs, d.userKey, Semicolon) == Some(user) && Capture(cs, d.pwdKey, Semicolon) == Some(pwd)
    ensures Extract(d, cs) == ConnInfo(Some(host), Some(ParseInt(port)), Some(db), Some(user), Some(pwd))
  {
    SplitOnce(host, d.port.sep, port);
  }

  /** With the port inside the server value, a server value without the
      separator is all host, and no port is set. */
  lemma ExtractSplitNoPort(d: Dialect, cs: string, host: string, db: string, user: string, pwd: string)
    requires d.port.ServerSplit? && d.port.sep !in host
    requires Capture(cs, d.hostKey, d.stops) == Some(host)
    requires Capture(cs, d.dbKey, d.stops) == Some(db)
    requires Capture(cs, d.userKey, Semicolon) == Some(user) && Capture(cs, d.pwdKey, Semicolon) == Some(pwd)
    ensures Extract(d, cs) == ConnInfo(Some(host), None, Some(db), Some(user), Some(pwd))
  {
    UptoWhole(host, d.port.sep);
  }

  lemma ServerValue0(v: string)
    requires v == "127.0.0.1:30015"
    ensures v == "127.0.0.1" + [':'] + "30015" && ':' !in "127.0.0.1" && ':' !in "30015"
  {
  }

  lemma Port30015(s: string)
    requires s == "30015"
    ensures ParseInt(s) == Int(30015)
  {
    FiveDigits(s);
  }

  lemma Port3306(s: string)
    requires s == "3306"
    ensures ParseInt(s) == Int(3306)
  {
    FourDigits(s);
  }

  lemma Port1521(s: string)
    requires s == "1521"
    ensures ParseInt(s) == Int(1521)
  {
    FourDigits(s);
  }

  lemma Port5432(s: string)
    requires s == "5432"
    ensures ParseInt(s) == Int(5432)
  {
    FourDigits(s);
  }

  /** Template `0` reads back as the host and port written in its server
      value, and its database, user and password. */
  lemma Template0ReadsBack(dbType: string)
    requires IsCode(dbType, '0')
    ensures ParseConnectionString(dbType, GenerateConnectionString(dbType))
            == ConnInfo(Some("127.0.0.1"), Some(Int(30015)), Some("myDB"), Some("system"), Some("Pwd@123"))
  {
    var cs := GenerateConnectionString(dbType);
    assert cs == Concat(Parts0);
    var d := Dialect("Server=", ServerSplit(':'), "Database=", "UserID=", "Password=", Semicolon);
    assert DialectOf(dbType) == Some(d);
    Template0Host(Parts0);
    Template0Database(Parts0);
    Template0User(Parts0);
    Template0Password(Parts0);
    ServerValue0("127.0.0.1:30015");
    ExtractSplitPort(d, cs, "127.0.0.1", "30015", "myDB", "system", "Pwd@123");
    Port30015("30015");
  }

  /** The template of codes `1`, `6` and `7` reads back as the host, port,
      database, user and password written in it. */
  lemma Template1ReadsBack(dbType: string)
    requires IsCode(dbType, '1') || IsCode(dbType, '6') || IsCode(dbType, '7')
    ensures ParseConnectionString(dbType, GenerateConnectionString(dbType))
            == ConnInfo(Some("127.0.0.1"), Some(Int(3306)), Some("myDB"), Some("root"), Some("Pwd@123"))
  {
    var cs := GenerateConnectionString(dbType);
    assert cs == Concat(Parts1);
    var d := Dialect("Server=", PortKey("Port="), "Database=", "Uid=", "Pwd=", Semicolon);
    assert DialectOf(dbType) == Some(d);
    Template1Host(Parts1);
    Template1Database(Parts1);
    Template1User(Parts1);
    Template1Password(Parts1);
    Template1Port(Parts1);
    // Bound through `:|` rather than `:=` so the literal stays opaque to
    // ExtractKeyed, which then does not unfold its characters.
    var port: string :| port == "3306";
    ExtractKeyed(d, cs, "127.0.0.1", port, "myDB", "root", "Pwd@123");
    Port3306(port);
  }

  /** The template of codes `2` and `5` reads back as the host, port and
      service name written in its descriptor, and its user and password. */
  lemma Template2ReadsBack(dbType: string)
    requires IsCode(dbType, '2') || IsCode(dbType, '5')
    ensures ParseConnectionString(dbType, GenerateConnectionString(dbType))
            == ConnInfo(Some("127.0.0.1"), Some(Int(1521)), Some("myDB"), Some("sys"), Some("Pwd@123"))
  {
    var cs := GenerateConnectionString(dbType);
    assert cs == Concat(Parts2);
    var d := Dialect("HOST=", PortKey("PORT="), "SERVICE_NAME=", "User Id=", "Password=", ParenOrSemicolon);
    assert DialectOf(dbType) == Some(d);
    Template2Host(Parts2);
    Template2Database(Parts2);
    Template2User(Parts2);
    Template2Password(Parts2);
    Template2Port(Parts2);
    // Bound through `:|` rather than `:=` so the literal stays opaque to
    // ExtractKeyed, which then does not unfold its characters.
    var port: string :| port == "1521";
    ExtractKeyed(d, cs, "127.0.0.1", port, "myDB", "sys", "Pwd@123");
    Port1521(port);
  }

  /** Template `3` reads back as its host, database, user and password;
      its server value holds no `,`, so no port is set. */
  lemma Template3ReadsBack(dbType: string)
    requires IsCode(dbType, '3')
    ensures ParseConnectionString(dbType, GenerateConnectionString(dbType))
            == ConnInfo(Some("127.0.0.1"), None, Some("myDB"), Some("sa"), Some("Pwd@123"))
  {
    var cs := GenerateConnectionString(dbType);
    assert cs == Concat(Parts3);
    var d := Dialect("Server=", ServerSplit(','), "Database=", "User Id=", "Password=", Semicolon);
    assert DialectOf(dbType) == Some(d);
    Template3Host(Parts3);
    Template3Database(Parts3);
    Template3User(Parts3);
    Template3Password(Parts3);
    ExtractSplitNoPort(d, cs, "127.0.0.1", "myDB", "sa", "Pwd@123");
  }

  /** The template of codes `4` and `8` reads back as the host, port,
      database, user and password written in it. */
  lemma Template4ReadsBack(dbType: string)
    requires IsCode(dbType, '4') || IsCode(dbType, '8')
    ensures ParseConnectionString(dbType, GenerateConnectionString(dbType))
            == ConnInfo(Some("127.0.0.1"), Some(Int(5432)), Some("myDB"), Some("postgres"), Some("Pwd@123"))
  {
    var cs := GenerateConnectionString(dbType);
    assert cs == Concat(Parts4);
    var d := Dialect("Host=", PortKey("Port="), "Database=", "Username=", "Password=", Semicolon);
    assert DialectOf(dbType) == Some(d);
    Template4Host(Parts4);
    Template4Database(Parts4);
    Template4User(Parts4);
    Template4Password(Parts4);
    Template4Port(Parts4);
    // Bound through `:|` rather than `:=` so the literal stays opaque to
    // ExtractKeyed, which then does not unfold its characters.
    var port: string :| port == "5432";
    ExtractKeyed(d, cs, "127.0.0.1", port, "myDB", "postgres", "Pwd@123");
    Port5432(port);
  }
}
