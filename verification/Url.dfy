/**
 Taking a URL apart: url2hostname, url2username and url2password of src/HttpStream.cpp (section 3.2
 of RFC 3986).
 */
module Url {
  import opened Bytes

  // ---- std::string::find ------------------------------------------------

  /** The first place where one of the characters stands; the length stands for npos. */
  function Find(s: string, chars: string): (i: nat)
    ensures i <= |s| && (i < |s| ==> s[i] in chars) && forall k | 0 <= k < i :: s[k] !in chars
  {
    if s == [] || s[0] in chars then 0 else 1 + Find(s[1..], chars)
  }

  /** Where the text behind the first "://" begins; None is npos. */
  function FindProtocol(url: string): (beg: Option<nat>)
    ensures beg.Some? ==> 3 <= beg.value <= |url|
  {
    if |url| < 3 then None
    else if url[..3] == "://" then Some(3)
    else match FindProtocol(url[1..]) case None => None case Some(beg) => Some(beg + 1)
  }

  // ---- The three extractors, on the text behind "://" ------------------------------------------------

  function HostOf(tail: string): string {
    var at := Find(tail, "@");
    var host := if at < |tail| then tail[at + 1..] else tail;
    host[..Find(host, ":/")]
  }

  function UserOf(tail: string): string {
    var at, end := Find(tail, "@"), Find(tail, ":");
    if at == |tail| then ""
    else if end == |tail| || end > at then tail[..at]
    else tail[..end]
  }

  function PassOf(tail: string): string {
    var at, sep := Find(tail, "@"), Find(tail, ":");
    if at == |tail| || at < sep then "" else tail[sep + 1..at]
  }

  /** The protocol is required. */
  function Url2Hostname(url: string): string {
    match FindProtocol(url) case None => "" case Some(beg) => HostOf(url[beg..])
  }

  function Url2Username(url: string): string {
    match FindProtocol(url) case None => "" case Some(beg) => UserOf(url[beg..])
  }

  function Url2Password(url: string): string {
    match FindProtocol(url) case None => "" case Some(beg) => PassOf(url[beg..])
  }

  predicate SchemeEnds(url: string, k: nat) {
    k + 3 <= |url| && url[k..k + 3] == "://"
  }

  /** Without "://" there is nothing to be had. */
  lemma {:induction false} ProtocolRequired(url: string)
    requires forall k: nat :: !SchemeEnds(url, k)
    ensures Url2Hostname(url) == "" && Url2Username(url) == "" && Url2Password(url) == ""
  {
    NoProtocol(url);
  }

  lemma {:induction false} NoProtocol(url: string)
    requires forall k: nat :: !SchemeEnds(url, k)
    ensures FindProtocol(url) == None
  {
    if |url| >= 3 {
      var rest := url[1..];
      forall k: nat
        ensures !SchemeEnds(rest, k)
      {
        assert !SchemeEnds(url, k + 1);
        assert k + 3 <= |rest| ==> rest[k..k + 3] == url[k + 1..k + 1 + 3];
      }
      NoProtocol(rest);
      assert !SchemeEnds(url, 0);
    }
  }

  // ---- What they give back ------------------------------------------------

  datatype UserInfo = Nobody | User(user: string) | Login(user: string, pass: string)

  /** A URL in parts; `rest` is a port, a path or nothing. */
  datatype Parts = Parts(scheme: string, userInfo: UserInfo, host: string, rest: string)

  function Authority(p: Parts): string {
    match p.userInfo
    case Nobody => p.host + p.rest
    case User(user) => user + ("@" + (p.host + p.rest))
    case Login(user, pass) => user + (":" + (pass + ("@" + (p.host + p.rest))))
  }

  function Compose(p: Parts): string {
    p.scheme + ("://" + Authority(p))
  }

  predicate NoneOf(s: string, chars: string) {
    forall c | c in s :: c !in chars
  }

  /** The parts keep clear of the delimiters behind them; IPv6 literals are outside this. */
  predicate Plain(p: Parts) {
    && FindProtocol(p.scheme) == None
    && NoneOf(p.host, ":/@") && (p.rest != [] ==> p.rest[0] in ":/")
    && match p.userInfo
       case Nobody => true
       case User(user) => NoneOf(user, ":@")
       case Login(user, pass) => NoneOf(user, ":@") && NoneOf(pass, "@")
  }

  /** The three extractors give the parts back. */
  predicate ComesBack(p: Parts) {
    && Url2Hostname(Compose(p)) == p.host
    && Url2Username(Compose(p)) == (if p.userInfo.Nobody? then "" else p.userInfo.user)
    && Url2Password(Compose(p)) == if p.userInfo.Login? then p.userInfo.pass else ""
  }

  lemma {:induction false} FindBehind(a: string, b: string, chars: string)
    requires NoneOf(a, chars)
    ensures Find(a + b, chars) == |a| + Find(b, chars)
  {
    if a == [] {
      assert a + b == b;
    } else {
      assert a[0] in a && (a + b)[1..] == a[1..] + b;
      FindBehind(a[1..], b, chars);
    }
  }

  /** The first "://" is the one behind the scheme. */
  lemma {:induction false} ProtocolIs(scheme: string, tail: string)
    requires FindProtocol(scheme) == None
    ensures FindProtocol(scheme + ("://" + tail)) == Some(|scheme| + 3)
  {
    var url := scheme + ("://" + tail);
    if scheme == [] {
      assert url[..3] == "://";
    } else {
      assert url[1..] == scheme[1..] + ("://" + tail);
      assert url[..3] != "://" by {
        if |scheme| >= 3 {
          assert url[..3] == scheme[..3];
        } else {
          assert url[|scheme|] == ':' && url[..3][|scheme|] == ':';
        }
      }
      ProtocolIs(scheme[1..], tail);
    }
  }

  lemma {:induction false} BehindProtocol(scheme: string, tail: string)
    ensures (scheme + ("://" + tail))[|scheme| + 3..] == tail
  {
    var front := scheme + "://";
    assert scheme + ("://" + tail) == front + tail && |front| == |scheme| + 3;
    assert (front + tail)[|front|..] == tail;
  }

  lemma {:induction false} TailIs(p: Parts)
    requires Plain(p)
    ensures FindProtocol(Compose(p)) == Some(|p.scheme| + 3) && Compose(p)[|p.scheme| + 3..] == Authority(p)
  {
    ProtocolIs(p.scheme, Authority(p));
    BehindProtocol(p.scheme, Authority(p));
  }

  lemma {:induction false} HostIs(host: string, rest: string)
    requires NoneOf(host, ":/") && (rest != [] ==> rest[0] in ":/")
    ensures (host + rest)[..Find(host + rest, ":/")] == host
  {
    FindBehind(host, rest, ":/");
  }

  /** What stands before and behind a delimiter. */
  lemma {:induction false} CutAt(a: string, c: char, b: string)
    ensures var s := a + ([c] + b); |s| == |a| + 1 + |b| && s[..|a|] == a && s[|a| + 1..] == b && s[|a|] == c
  {
  }

  lemma {:induction false} FindHere(a: string, c: char, b: string, chars: string)
    requires NoneOf(a, chars) && c in chars
    ensures Find(a + ([c] + b), chars) == |a|
  {
    FindBehind(a, [c] + b, chars);
  }

  lemma {:induction false} NobodyTail(host: string, rest: string)
    requires NoneOf(host, ":/@") && (rest != [] ==> rest[0] in ":/") && NoneOf(rest, "@")
    ensures var tail := host + rest; HostOf(tail) == host && UserOf(tail) == "" && PassOf(tail) == ""
  {
    FindBehind(host, rest, "@");
    FindBehind(rest, "", "@");
    assert rest + "" == rest;
    HostIs(host, rest);
  }

  lemma {:induction false} UserTail(user: string, after: string)
    requires NoneOf(user, ":@")
    ensures var tail := user + ("@" + after);
      HostOf(tail) == after[..Find(after, ":/")] && UserOf(tail) == user && PassOf(tail) == ""
  {
    FindHere(user, '@', after, "@");
    FindBehind(user, "@" + after, ":");
    CutAt(user, '@', after);
  }

  lemma {:induction false} LoginText(user: string, pass: string, after: string)
    ensures user + (":" + (pass + ("@" + after))) == user + ":" + pass + ("@" + after)
    ensures (user + ":" + pass)[|user| + 1..] == pass
  {
    Assoc(user, ":", pass + ("@" + after));
    Assoc(user + ":", pass, "@" + after);
    assert |user + ":"| == |user| + 1;
  }

  /** A slice that ends before the text goes on is one of what stands before. */
  lemma {:induction false} SliceBefore(s: string, rest: string, i: nat)
    requires i <= |s|
    ensures (s + rest)[i..|s|] == s[i..]
  {
  }

  lemma {:induction false} LoginUser(user: string, behind: string)
    requires NoneOf(user, ":@")
    ensures var tail := user + (":" + behind); Find(tail, ":") == |user| && tail[..|user|] == user
  {
    FindHere(user, ':', behind, ":");
    CutAt(user, ':', behind);
  }

  lemma {:induction false} LoginPass(user: string, pass: string, after: string)
    requires NoneOf(user, ":@") && NoneOf(pass, "@")
    ensures var secret := user + ":" + pass; var tail := secret + ("@" + after);
      && Find(tail, "@") == |secret| && tail[|secret| + 1..] == after
      && tail[|user| + 1..|secret|] == pass
  {
    var secret := user + ":" + pass;
    FindHere(secret, '@', after, "@");
    CutAt(secret, '@', after);
    SliceBefore(secret, "@" + after, |user| + 1);
    LoginText(user, pass, after);
  }

  /** Where the first ':' and the first '@' are, and what is around them. */
  lemma {:induction false} LoginCuts(tail: string, user: string, pass: string, after: string)
    requires NoneOf(user, ":@") && NoneOf(pass, "@") && tail == user + (":" + (pass + ("@" + after)))
    ensures Find(tail, ":") == |user| && Find(tail, "@") == |user| + 1 + |pass| < |tail|
    ensures tail[..|user|] == user && tail[|user| + 1..|user| + 1 + |pass|] == pass
      && tail[|user| + 1 + |pass| + 1..] == after
  {
    LoginText(user, pass, after);
    LoginUser(user, pass + ("@" + after));
    LoginPass(user, pass, after);
  }

  lemma {:induction false} HostBy(tail: string, at: nat, after: string)
    requires Find(tail, "@") == at < |tail| && tail[at + 1..] == after
    ensures HostOf(tail) == after[..Find(after, ":/")]
  {
  }

  lemma {:induction false} UserBy(tail: string, sep: nat, user: string)
    requires Find(tail, ":") == sep < Find(tail, "@") < |tail| && tail[..sep] == user
    ensures UserOf(tail) == user
  {
  }

  lemma {:induction false} PassBy(tail: string, sep: nat, at: nat, pass: string)
    requires Find(tail, ":") == sep < at == Find(tail, "@") < |tail| && tail[sep + 1..at] == pass
    ensures PassOf(tail) == pass
  {
  }

  lemma {:induction false} LoginBy(tail: string, user: string, pass: string, after: string, sep: nat, at: nat)
    requires Find(tail, ":") == sep < at == Find(tail, "@") < |tail|
    requires tail[..sep] == user && tail[sep + 1..at] == pass && tail[at + 1..] == after
    ensures HostOf(tail) == after[..Find(after, ":/")] && UserOf(tail) == user && PassOf(tail) == pass
  {
    HostBy(tail, at, after);
    UserBy(tail, sep, user);
    PassBy(tail, sep, at, pass);
  }

  lemma {:induction false} LoginTail(user: string, pass: string, after: string)
    requires NoneOf(user, ":@") && NoneOf(pass, "@")
    ensures var tail := user + (":" + (pass + ("@" + after)));
      HostOf(tail) == after[..Find(after, ":/")] && UserOf(tail) == user && PassOf(tail) == pass
  {
    var tail := user + (":" + (pass + ("@" + after)));
    LoginCuts(tail, user, pass, after);
    LoginBy(tail, user, pass, after, |user|, |user| + 1 + |pass|);
  }

  /** Neither host nor user, and yet ":@": a colon and an '@' that stand for nothing. */
  predicate EmptyLogin(host: string, rest: string) {
    host == "" && |rest| >= 2 && rest[0] == ':' && rest[1] == '@' && (|rest| > 2 ==> rest[2] in ":/")
  }

  lemma {:induction false} EmptyLoginTail(rest: string)
    requires EmptyLogin("", rest)
    ensures HostOf(rest) == "" && UserOf(rest) == "" && PassOf(rest) == ""
  {
    FindAtFirst(rest, ":");
    assert rest == [rest[0]] + rest[1..];
    assert Find(rest, "@") == 1 by {
      FindAtFirst(rest[1..], "@");
    }
    var after := rest[2..];
    FindAtFirst(after, ":/");
    assert rest[1..1] == "";
  }

  lemma {:induction false} FindAtFirst(s: string, chars: string)
    ensures s != [] && s[0] in chars ==> Find(s, chars) == 0
    ensures s == [] ==> Find(s, chars) == 0
  {
  }

  /** User and password by the places of the two delimiters. */
  lemma {:induction false} SplitAt(tail: string, at: nat, sep: nat)
    requires Find(tail, "@") == at < |tail| && Find(tail, ":") == sep
    ensures |UserOf(tail)| == Min(at, sep) && |PassOf(tail)| == if at < sep then 0 else at - sep - 1
    ensures HostOf(tail) == tail[at + 1..][..Find(tail[at + 1..], ":/")]
  {
  }

  /** An '@' behind the host is taken for the end of user information, which then is not empty. */
  lemma {:induction false} AtBehindHost(tail: string, host: nat)
    requires host <= |tail| && Find(tail, "@") < |tail| && host <= Find(tail, "@") && host <= Find(tail, ":")
    requires host == Find(tail, "@") ==> host == |tail|
    requires host == 0 && Find(tail, ":") == 0 && Find(tail, "@") == 1 ==> |tail| > 2 && tail[2] !in ":/"
    ensures host == 0 ==> HostOf(tail) != "" || UserOf(tail) != "" || PassOf(tail) != ""
    ensures host > 0 ==> UserOf(tail) != ""
  {
    SplitAt(tail, Find(tail, "@"), Find(tail, ":"));
    if host == 0 && Find(tail, ":") == 0 && Find(tail, "@") == 1 {
      FindNotFirst(tail[2..], ":/");
    }
  }

  lemma {:induction false} FindNotFirst(s: string, chars: string)
    requires s != [] && s[0] !in chars
    ensures s[..Find(s, chars)] != ""
  {
  }

  lemma {:induction false} FindIn(s: string, c: char)
    requires c in s
    ensures Find(s, [c]) < |s|
  {
    if s[0] != c {
      FindIn(s[1..], c);
    }
  }

  /** Nobody, but an '@' behind the host: the delimiters of the tail. */
  lemma {:induction false} HostThenAt(host: string, rest: string)
    requires NoneOf(host, ":/@") && (rest != [] ==> rest[0] in ":/") && '@' in rest && !EmptyLogin(host, rest)
    ensures var tail := host + rest; HostOf(tail) != host || UserOf(tail) != "" || PassOf(tail) != ""
  {
    var tail := host + rest;
    FindBehind(host, rest, "@");
    FindBehind(host, rest, ":");
    FindIn(rest, '@');
    if host == "" {
      assert tail == rest;
    }
    AtBehindHost(tail, |host|);
  }

  lemma {:induction false} NobodyComesBack(host: string, rest: string)
    requires NoneOf(host, ":/@") && (rest != [] ==> rest[0] in ":/")
    ensures var tail := host + rest;
      HostOf(tail) == host && UserOf(tail) == "" && PassOf(tail) == "" <==> (NoneOf(rest, "@") || EmptyLogin(host,
        rest))
  {
    if NoneOf(rest, "@") {
      NobodyTail(host, rest);
    } else if EmptyLogin(host, rest) {
      assert host + rest == rest;
      EmptyLoginTail(rest);
    } else {
      var c :| c in rest && c in "@";
      HostThenAt(host, rest);
    }
  }

  /** The extractors look behind "://" only. */
  lemma {:induction false} ComesBackIs(p: Parts)
    requires Plain(p)
    ensures ComesBack(p) <==>
      && HostOf(Authority(p)) == p.host
      && UserOf(Authority(p)) == (if p.userInfo.Nobody? then "" else p.userInfo.user)
      && PassOf(Authority(p)) == if p.userInfo.Login? then p.userInfo.pass else ""
  {
    TailIs(p);
  }

  /**
   Decomposition undoes composition, if and only if there is user information, or no '@' behind the
   host (or the '@' follows an empty host and a colon, and stands for an empty login).
   */
  lemma {:induction false} PartsComeBack(p: Parts)
    requires Plain(p)
    ensures ComesBack(p) <==> (p.userInfo.Nobody? ==> NoneOf(p.rest, "@") || EmptyLogin(p.host, p.rest))
  {
    ComesBackIs(p);
    match p.userInfo {
      case Nobody => NobodyComesBack(p.host, p.rest);
      case User(user) =>
        UserTail(user, p.host + p.rest);
        HostIs(p.host, p.rest);
      case Login(user, pass) =>
        LoginTail(user, pass, p.host + p.rest);
        HostIs(p.host, p.rest);
    }
  }

  /**
   Whatever the URL: when there is a password, the text between "://" and the first '@' behind it is
   the username, a colon and the password.
   */
  lemma {:induction false} CredentialsAreWhole(url: string)
    requires Url2Password(url) != ""
    ensures FindProtocol(url).Some?
    ensures var tail := url[FindProtocol(url).value..];
      Find(tail, "@") < |tail| && tail[..Find(tail, "@")] == Url2Username(url) + ":" + Url2Password(url)
  {
    var tail := url[FindProtocol(url).value..];
    var at, sep := Find(tail, "@"), Find(tail, ":");
    assert at < |tail| && sep <= at;
    assert sep < at && tail[sep] == ':';
    CutTwice(tail, sep, at);
  }

  lemma {:induction false} CutTwice(s: string, i: nat, j: nat)
    requires i < j <= |s|
    ensures s[..j] == s[..i] + [s[i]] + s[i + 1..j]
  {
  }

  lemma {:induction false} LastTail(front: string, name: string)
    requires NoneOf(front, "@") && NoneOf(name, ":/")
    ensures HostOf(front + ("@" + name)) == name
  {
    FindHere(front, '@', name, "@");
    CutAt(front, '@', name);
    HostIs(name, "");
    assert name + "" == name;
  }

  /**
   An '@' behind the authority is taken for the end of the user information: whatever host and path
   stand before it, the host that comes out is what stands behind it.
   */
  lemma {:induction false} AtInPathMisleads(scheme: string, hostAndPath: string, name: string)
    requires FindProtocol(scheme) == None && NoneOf(hostAndPath, "@") && NoneOf(name, ":/")
    ensures Url2Hostname(scheme + ("://" + (hostAndPath + ("@" + name)))) == name
  {
    var tail := hostAndPath + ("@" + name);
    ProtocolIs(scheme, tail);
    LastTail(hostAndPath, name);
    BehindProtocol(scheme, tail);
  }
}
