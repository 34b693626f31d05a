/** Connection strings: the parser (src/oracle_connection_manager.cpp:20-31), the builder from a
    secret (src/oracle_secret.cpp:71-140) and the alias test (src/oracle_extension.cpp:208, 461). */
module ConnectionString {
  import opened Wrappers

  // ---------------------------------------------------------------- parsing

  datatype Parts = Parts(user: string, password: string, db: string)

  ghost predicate IsFind(s: string, c: char, from: nat, p: Option<nat>) {
    match p
    case Some(i) => from <= i < |s| && s[i] == c && forall k :: from <= k < i ==> s[k] != c
    case None => forall k :: from <= k < |s| ==> s[k] != c
  }

  /** std::string::find: the first position of `c` at or after `from`, or none. */
  method Find(s: string, c: char, from: nat) returns (p: Option<nat>)
    ensures IsFind(s, c, from, p)
  {
    var i := from;
    while i < |s|
      invariant from <= i
      invariant forall k :: from <= k < i && k < |s| ==> s[k] != c
    {
      if s[i] == c {
        return Some(i);
      }
      i := i + 1;
    }
    p := None;
  }

  /** The strings the parser is meant to accept, and what it is meant to return. */
  ghost predicate Splits(s: string, p: Parts) {
    && s == p.user + "/" + p.password + "@" + p.db
    && p.user != "" && '/' !in p.user
    && p.password != "" && '@' !in p.password
    && p.db != ""
  }

  /** No string splits in two ways. */
  lemma SplitUnique(s: string, p: Parts, q: Parts)
    requires Splits(s, p) && Splits(s, q)
    ensures p == q
  {
    FirstAt(s, p);
    FirstAt(s, q);
    SameFirst(s, '/', |p.user|, |q.user|);
    var rest := s[|p.user| + 1..];
    assert rest == p.password + "@" + p.db && rest == q.password + "@" + q.db;
    SameFirst(rest, '@', |p.password|, |q.password|);
    assert p.user == s[..|p.user|] && q.user == s[..|q.user|];
    assert p.password == rest[..|p.password|] && q.password == rest[..|q.password|];
    assert p.db == rest[|p.password| + 1..] && q.db == rest[|q.password| + 1..];
  }

  /** Two positions of `c` with no `c` before them are the same position. */
  lemma SameFirst(s: string, c: char, i: nat, j: nat)
    requires i < |s| && j < |s| && s[i] == c && s[j] == c
    requires c !in s[..i] && c !in s[..j]
    ensures i == j
  {
    if i < j {
      InPrefix(s, c, i, j);
    } else if j < i {
      InPrefix(s, c, j, i);
    }
  }

  lemma InPrefix(s: string, c: char, i: nat, j: nat)
    requires i < j <= |s| && s[i] == c
    ensures c in s[..j]
  {
    assert s[..j][i] == c;
  }

  lemma FirstAt(s: string, p: Parts)
    requires Splits(s, p)
    ensures |p.user| + |p.password| + 1 < |s|
    ensures s[|p.user|] == '/' && s[..|p.user|] == p.user
    ensures s[|p.user| + 1..] == p.password + "@" + p.db
    ensures (p.password + "@" + p.db)[..|p.password|] == p.password
    ensures (p.password + "@" + p.db)[|p.password|] == '@'
  {
    assert s == p.user + ("/" + (p.password + ("@" + p.db)));
    assert s[|p.user| + 1..] == p.password + ("@" + p.db);
    assert p.password + ("@" + p.db) == p.password + "@" + p.db;
  }

  /** Where the two searches of the parser stop on a string that splits. */
  lemma SplitPositions(s: string, p: Parts, slash: Option<nat>, at: Option<nat>)
    requires Splits(s, p)
    requires IsFind(s, '/', 0, slash)
    requires IsFind(s, '@', if slash.None? then 0 else slash.value, at)
    ensures slash == Some(|p.user|) && at == Some(|p.user| + 1 + |p.password|)
  {
    FirstAt(s, p);
    var u, w := |p.user|, |p.password|;
    assert forall k :: 0 <= k < u ==> s[k] == p.user[k];
    assert slash == Some(u);
    assert forall k :: u + 1 <= k < u + 1 + w ==> s[k] == s[u + 1..][k - u - 1] == p.password[k - u - 1];
    assert s[u + 1 + w] == s[u + 1..][w] == '@';
  }

  /** A string the parser accepts contains '@', so it is never looked up as an alias. */
  predicate TriedAsAlias(s: string) {
    '@' !in s
  }

  lemma AcceptedIsNoAlias(s: string, p: Parts)
    requires Splits(s, p)
    ensures !TriedAsAlias(s)
  {
  }

  /** ParseOracleConnectionString: it accepts exactly the strings that split, and returns the
      split; and none that is tried as an alias. */
  method Parse(s: string) returns (r: Option<Parts>)
    ensures r.Some? ==> Splits(s, r.value)
    ensures r.None? ==> forall p :: !Splits(s, p)
    ensures r.Some? ==> !TriedAsAlias(s)
  {
    var slash_pos := Find(s, '/', 0);
    var at_pos := Find(s, '@', if slash_pos.None? then 0 else slash_pos.value);
    forall p | Splits(s, p)
      ensures slash_pos == Some(|p.user|) && at_pos == Some(|p.user| + 1 + |p.password|) && |p.user| + |p.password| + 2 < |s|
    {
      SplitPositions(s, p, slash_pos, at_pos);
    }
    if slash_pos.None? || at_pos.None? || slash_pos.value == 0 || at_pos.value <= slash_pos.value + 1
       || at_pos.value == |s| - 1 {
      return None;
    }
    var slash, at := slash_pos.value, at_pos.value;
    var parts := Parts(s[..slash], s[slash + 1..at], s[at + 1..]);
    assert s == parts.user + "/" + parts.password + "@" + parts.db;
    AcceptedIsNoAlias(s, parts);
    r := Some(parts);
  }

  // ---------------------------------------------------------------- building

  datatype Secret = Secret(host: string, port: nat, service: string, user: string, password: string)

  predicate ValidSecret(p: Secret) {
    p.user != "" && p.service != "" && p.password != "" && 0 < p.port <= 65535
  }

  predicate AllDigits(s: string) { forall i :: 0 <= i < |s| ==> '0' <= s[i] <= '9' }

  function Digits(n: nat): (s: string)
    ensures s != "" && AllDigits(s)
  {
    if n < 10 then [(n as char) + '0'] else Digits(n / 10) + [((n % 10) as char) + '0']
  }

  /** The number a decimal numeral denotes. */
  function Value(s: string): nat
    requires AllDigits(s)
  {
    if s == "" then 0 else 10 * Value(s[..|s| - 1]) + (s[|s| - 1] - '0') as nat
  }

  lemma {:induction false} DigitsDenote(n: nat)
    ensures Value(Digits(n)) == n
  {
    if n < 10 {
      assert Digits(n)[..0] == "";
    } else {
      DigitsDenote(n / 10);
      assert Digits(n)[..|Digits(n)| - 1] == Digits(n / 10);
    }
  }

  function Identifier(p: Secret): string {
    p.host + ":" + Digits(p.port) + "/" + p.service
  }

  /** BuildConnectionStringFromSecret: an invalid secret is refused. */
  function Build(p: Secret): Option<string> {
    if !ValidSecret(p) then None
    else
      var s := p.user + if p.password != "" then "/" + p.password else "";
      Some(s + "@" + p.host + ":" + Digits(p.port) + "/" + p.service)
  }

  lemma BuildText(p: Secret)
    requires ValidSecret(p)
    ensures Build(p) == Some(p.user + "/" + p.password + "@" + Identifier(p))
  {
    assert p.user + ("/" + p.password) == p.user + "/" + p.password;
    assert Build(p).value == p.user + "/" + p.password + "@" + Identifier(p);
  }

  /** Round trip, exactly: a validated secret comes back out of its connection string if and only
      if its user has no '/' and its password no '@'. */
  lemma RoundTripIff(p: Secret)
    requires ValidSecret(p)
    ensures Build(p).Some?
    ensures Splits(Build(p).value, Parts(p.user, p.password, Identifier(p))) <==> '/' !in p.user && '@' !in p.password
  {
    BuildText(p);
  }

  /** A secret is refused exactly when its user, service or password is missing or its port is none. */
  lemma RefusedIff(p: Secret)
    ensures Build(p) == None <==> p.user == "" || p.service == "" || p.password == "" || p.port == 0 || p.port >= 0x1_0000
  {
  }

  ghost predicate Numeral(s: string) {
    s != "" && AllDigits(s)
  }

  /** How an EZConnect identifier host:port/service is read: the host ends at the first colon, the
      port is the numeral behind it, the service what follows the slash. */
  ghost predicate Names(db: string, host: string, port: nat, service: string) {
    && ':' !in host
    && exists digits :: Numeral(digits) && Value(digits) == port && db == host + ":" + digits + "/" + service
  }

  /** The part before the first `c` is told by the whole, and so is the part behind it. */
  lemma CutAtFirst(a: string, b: string, a': string, b': string, c: char)
    requires a + [c] + b == a' + [c] + b' && c !in a && c !in a'
    ensures a == a' && b == b'
  {
    var s := a + [c] + b;
    assert s[..|a|] == a && s[..|a'|] == a' && s[|a|] == c && s[|a'|] == c;
    SameFirst(s, c, |a|, |a'|);
    assert s[|a| + 1..] == b && s[|a'| + 1..] == b';
  }

  lemma SamePort(digits: string, service: string, digits': string, service': string)
    requires Numeral(digits) && Numeral(digits') && digits + "/" + service == digits' + "/" + service'
    ensures digits == digits' && service == service'
  {
    CutAtFirst(digits, service, digits', service', '/');
  }

  lemma SplitsOff(host: string, digits: string, service: string)
    ensures host + ":" + digits + "/" + service == host + ":" + (digits + "/" + service)
  {
  }

  /** An identifier names one host, port and service. */
  lemma NamesOne(db: string, host: string, port: nat, service: string, host': string, port': nat, service': string)
    requires Names(db, host, port, service) && Names(db, host', port', service')
    ensures host == host' && port == port' && service == service'
  {
    var d :| Numeral(d) && Value(d) == port && db == host + ":" + d + "/" + service;
    var d' :| Numeral(d') && Value(d') == port' && db == host' + ":" + d' + "/" + service';
    SplitsOff(host, d, service);
    SplitsOff(host', d', service');
    CutAtFirst(host, d + "/" + service, host', d' + "/" + service', ':');
    SamePort(d, service, d', service');
  }

  /** The identifier built from a secret names its host, port and service, unless the host has a colon. */
  lemma IdentifierNamesIff(p: Secret)
    ensures Names(Identifier(p), p.host, p.port, p.service) <==> ':' !in p.host
  {
    DigitsDenote(p.port);
    assert Numeral(Digits(p.port));
  }

  /** What a connection string says, all of it. */
  ghost predicate Says(s: string, p: Secret) {
    exists db :: Splits(s, Parts(p.user, p.password, db)) && Names(db, p.host, p.port, p.service)
  }

  lemma SaysOne(s: string, p: Secret, q: Secret)
    requires Says(s, p) && Says(s, q)
    ensures p == q
  {
    var d :| Splits(s, Parts(p.user, p.password, d)) && Names(d, p.host, p.port, p.service);
    var d' :| Splits(s, Parts(q.user, q.password, d')) && Names(d', q.host, q.port, q.service);
    SplitUnique(s, Parts(p.user, p.password, d), Parts(q.user, q.password, d'));
    NamesOne(d, p.host, p.port, p.service, q.host, q.port, q.service);
  }

  /** The whole secret, and it alone, is what its connection string says, if and only if each part
      avoids the separator that ends it. */
  lemma SecretSaidIff(p: Secret)
    requires ValidSecret(p)
    ensures (forall q :: Says(Build(p).value, q) <==> q == p) <==> '/' !in p.user && '@' !in p.password && ':' !in p.host
  {
    RoundTripIff(p);
    IdentifierNamesIff(p);
    var s := Build(p).value;
    if '/' !in p.user && '@' !in p.password && ':' !in p.host {
      assert Says(s, p);
      forall q ensures Says(s, q) <==> q == p {
        if Says(s, q) {
          SaysOne(s, p, q);
        }
      }
    } else {
      assert !Says(s, p);
    }
  }

  /** The same through the code: build, then parse. */
  method BuildThenParse(p: Secret) returns (r: Option<Parts>)
    requires ValidSecret(p)
    ensures r == Some(Parts(p.user, p.password, Identifier(p))) <==> '/' !in p.user && '@' !in p.password
  {
    RoundTripIff(p);
    r := Parse(Build(p).value);
    if '/' !in p.user && '@' !in p.password {
      SplitUnique(Build(p).value, r.value, Parts(p.user, p.password, Identifier(p)));
    }
  }
}
