/**
 The stack publisher: which hosts and scripts a call stack publishes, how one observation is broken
 down, and how the page's requests of one URL are joined to the session's observations of it.

 Redaction and the digest are parameters: total functions of the URL.
 */
module CallStackPublisher {
  import opened Wrappers
  import opened Utf16
  import opened JsonText

  datatype Redaction = Redaction(
    url: JsString -> JsString,
    host: JsString -> JsString,
    digest: JsString -> JsString,
    isAddress: JsString -> bool)

  /** What a stack publishes, innermost first. */
  datatype Stack = Stack(hosts: seq<JsString>, scripts: seq<JsString>)

  datatype Category = Redirected | WithoutStack | WithoutNamedScript | NotListed | Group(key: JsString)

  const MAX_STACK_FRAMES := 200
  const MAX_HELD_URL_CHARS := 2048
  const MAX_GROUP_HOSTS := 4
  const MAX_GROUP_SCRIPTS := 8
  const HASH: CodeUnit := 0x23
  const SHA_PREFIX: JsString := [0x73, 0x68, 0x61, 0x32, 0x35, 0x36, 0x3A]

  // ---- Held keys ----

  function WithoutFragment(url: JsString): (r: JsString)
    ensures r <= url && HASH !in r && (r == url || url[|r|] == HASH)
  {
    if url == [] || url[0] == HASH then [] else [url[0]] + WithoutFragment(url[1..])
  }

  function HeldKey(url: JsString, red: Redaction): JsString {
    var key := WithoutFragment(url);
    if |key| <= MAX_HELD_URL_CHARS then key else SHA_PREFIX + red.digest(key)
  }

  ghost predicate Injective(f: JsString -> JsString) {
    forall a, b :: f(a) == f(b) ==> a == b
  }

  /** A short URL that spells out the digest of a long one. */
  predicate Impersonates(short: JsString, long: JsString, red: Redaction) {
    && |WithoutFragment(short)| <= MAX_HELD_URL_CHARS < |WithoutFragment(long)|
    && WithoutFragment(short) == SHA_PREFIX + red.digest(WithoutFragment(long))
  }

  /** Two URLs share a key when they are the same but for the fragment, and in one other case. */
  lemma KeysCollideIff(a: JsString, b: JsString, red: Redaction)
    requires Injective(red.digest)
    ensures HeldKey(a, red) == HeldKey(b, red) <==>
      WithoutFragment(a) == WithoutFragment(b) || Impersonates(a, b, red) || Impersonates(b, a, red)
  {
    var x, y := WithoutFragment(a), WithoutFragment(b);
    if |x| > MAX_HELD_URL_CHARS && |y| > MAX_HELD_URL_CHARS && HeldKey(a, red) == HeldKey(b, red) {
      assert red.digest(x) == HeldKey(a, red)[|SHA_PREFIX|..] && red.digest(y) == HeldKey(b, red)[|SHA_PREFIX|..];
    }
  }

  // ---- What a stack publishes ----

  predicate IsNamed(frame: JsString, code: set<JsString>, red: Redaction) {
    frame != [] && HeldKey(frame, red) in code
  }

  /** The hosts of the first `n` frames that are named, consecutive repeats collapsed. */
  function HostsAlong(frames: seq<JsString>, n: nat, code: set<JsString>, red: Redaction): seq<JsString>
    requires n <= |frames|
  {
    if n == 0 then []
    else
      var hosts := HostsAlong(frames, n - 1, code, red);
      if !IsNamed(frames[n - 1], code, red) then hosts
      else if hosts != [] && hosts[|hosts| - 1] == red.host(frames[n - 1]) then hosts
      else hosts + [red.host(frames[n - 1])]
  }

  /** The published addresses of the first `n` frames that are named, each once. */
  function ScriptsAlong(frames: seq<JsString>, n: nat, code: set<JsString>, red: Redaction): seq<JsString>
    requires n <= |frames|
  {
    if n == 0 then []
    else
      var scripts := ScriptsAlong(frames, n - 1, code, red);
      var script := red.url(frames[n - 1]);
      if IsNamed(frames[n - 1], code, red) && red.isAddress(script) && script !in scripts then scripts + [script] else scripts
  }

  /** How many frames are read: up to the one that would add a fifth host. */
  function Reach(frames: seq<JsString>, n: nat, code: set<JsString>, red: Redaction): (r: nat)
    requires n <= |frames|
    ensures n <= r <= |frames|
    decreases |frames| - n
  {
    if n == |frames| || |HostsAlong(frames, n + 1, code, red)| > MAX_GROUP_HOSTS then n
    else Reach(frames, n + 1, code, red)
  }

  function Published(frames: seq<JsString>, code: set<JsString>, red: Redaction): Option<Stack> {
    var reach := Reach(frames, 0, code, red);
    var hosts := HostsAlong(frames, reach, code, red);
    if hosts == [] then None else Some(Stack(hosts, Take(ScriptsAlong(frames, reach, code, red), MAX_GROUP_SCRIPTS)))
  }

  function NextHosts(hosts: seq<JsString>, host: JsString): seq<JsString> {
    if hosts == [] || hosts[|hosts| - 1] != host then hosts + [host] else hosts
  }

  function NextScripts(namedScripts: seq<JsString>, script: JsString, red: Redaction): seq<JsString> {
    if red.isAddress(script) && script !in namedScripts && |namedScripts| < MAX_GROUP_SCRIPTS then namedScripts + [script]
    else namedScripts
  }

  /** What has been gathered from the first `i` frames, with no fifth host among them. */
  ghost predicate Gathered(frames: seq<JsString>, i: nat, code: set<JsString>, red: Redaction, hosts: seq<JsString>,
                           namedScripts: seq<JsString>)
  {
    && i <= |frames| && hosts == HostsAlong(frames, i, code, red) && |hosts| <= MAX_GROUP_HOSTS
    && namedScripts == Take(ScriptsAlong(frames, i, code, red), MAX_GROUP_SCRIPTS)
    && Reach(frames, 0, code, red) == Reach(frames, i, code, red)
  }

  method PublishedStack(frames: seq<JsString>, code: set<JsString>, red: Redaction) returns (r: Option<Stack>)
    ensures r == Published(frames, code, red)
  {
    var hosts, namedScripts: seq<JsString> := [], [];
    for i := 0 to |frames|
      invariant Gathered(frames, i, code, red, hosts, namedScripts)
    {
      OneMoreFrame(frames, i, code, red, hosts, namedScripts);
      var frame := frames[i];
      if frame == [] {
        continue;
      }
      if HeldKey(frame, red) !in code {
        continue;
      }
      var full, withHost, withScript := TakeFrame(frame, hosts, namedScripts, red);
      if full {
        return Some(Stack(hosts, namedScripts));
      }
      hosts, namedScripts := withHost, withScript;
    }
    r := if hosts == [] then None else Some(Stack(hosts, namedScripts));
  }

  /** One named frame: its host unless it is the last one again, and its script if there is room; `full` at a fifth host. */
  method TakeFrame(frame: JsString, hosts: seq<JsString>, namedScripts: seq<JsString>, red: Redaction)
      returns (full: bool, withHost: seq<JsString>, withScript: seq<JsString>)
    requires |hosts| <= MAX_GROUP_HOSTS
    ensures full <==> |NextHosts(hosts, red.host(frame))| > MAX_GROUP_HOSTS
    ensures !full ==> withHost == NextHosts(hosts, red.host(frame))
    ensures !full ==> withScript == NextScripts(namedScripts, red.url(frame), red)
  {
    full, withHost, withScript := false, hosts, namedScripts;
    var host := red.host(frame);
    if hosts == [] || hosts[|hosts| - 1] != host {
      if |hosts| == MAX_GROUP_HOSTS {
        return true, hosts, namedScripts;
      }
      withHost := hosts + [host];
    }
    var script := red.url(frame);
    if red.isAddress(script) && script !in namedScripts && |namedScripts| < MAX_GROUP_SCRIPTS {
      withScript := namedScripts + [script];
    }
  }

  /** Keeping the first scripts only, a script already left out for want of room stays out. */
  lemma OneMoreScript(scripts: seq<JsString>, script: JsString)
    ensures script !in scripts ==>
      Take(scripts + [script], MAX_GROUP_SCRIPTS) ==
        if |Take(scripts, MAX_GROUP_SCRIPTS)| < MAX_GROUP_SCRIPTS then Take(scripts, MAX_GROUP_SCRIPTS) + [script]
        else Take(scripts, MAX_GROUP_SCRIPTS)
    ensures |Take(scripts, MAX_GROUP_SCRIPTS)| < MAX_GROUP_SCRIPTS ==> Take(scripts, MAX_GROUP_SCRIPTS) == scripts
  {
    if |scripts| >= MAX_GROUP_SCRIPTS {
      assert (scripts + [script])[..MAX_GROUP_SCRIPTS] == scripts[..MAX_GROUP_SCRIPTS];
    }
  }

  lemma OneMoreFrame(frames: seq<JsString>, i: nat, code: set<JsString>, red: Redaction, hosts: seq<JsString>,
                     namedScripts: seq<JsString>)
    requires i < |frames| && Gathered(frames, i, code, red, hosts, namedScripts)
    ensures var withHost := NextHosts(hosts, red.host(frames[i]));
      if !IsNamed(frames[i], code, red) then Gathered(frames, i + 1, code, red, hosts, namedScripts)
      else if |withHost| <= MAX_GROUP_HOSTS then
        Gathered(frames, i + 1, code, red, withHost, NextScripts(namedScripts, red.url(frames[i]), red))
      else Published(frames, code, red) == Some(Stack(hosts, namedScripts))
  {
    OneMoreScript(ScriptsAlong(frames, i, code, red), red.url(frames[i]));
    ReachStep(frames, i, code, red);
  }

  lemma ReachStep(frames: seq<JsString>, i: nat, code: set<JsString>, red: Redaction)
    requires i < |frames|
    ensures Reach(frames, i, code, red) ==
      if |HostsAlong(frames, i + 1, code, red)| > MAX_GROUP_HOSTS then i else Reach(frames, i + 1, code, red)
  {
  }

  predicate NoHostFollowsItself(hosts: seq<JsString>) {
    forall i :: 0 < i < |hosts| ==> hosts[i - 1] != hosts[i]
  }

  predicate Distinct<T(==)>(s: seq<T>) {
    forall i, j :: 0 <= i < j < |s| ==> s[i] != s[j]
  }

  lemma {:induction false} HostsAreOfRequestedFrames(frames: seq<JsString>, n: nat, code: set<JsString>, red: Redaction)
    requires n <= |frames|
    ensures NoHostFollowsItself(HostsAlong(frames, n, code, red))
    ensures forall h :: h in HostsAlong(frames, n, code, red) ==>
      exists i :: 0 <= i < n && IsNamed(frames[i], code, red) && red.host(frames[i]) == h
  {
    if n > 0 {
      HostsAreOfRequestedFrames(frames, n - 1, code, red);
    }
  }

  lemma {:induction false} ScriptsAreOfRequestedFrames(frames: seq<JsString>, n: nat, code: set<JsString>, red: Redaction)
    requires n <= |frames|
    ensures Distinct(ScriptsAlong(frames, n, code, red))
    ensures forall s :: s in ScriptsAlong(frames, n, code, red) ==>
      red.isAddress(s) && exists i :: 0 <= i < n && IsNamed(frames[i], code, red) && red.url(frames[i]) == s
  {
    if n > 0 {
      ScriptsAreOfRequestedFrames(frames, n - 1, code, red);
    }
  }

  lemma {:induction false} ReachIsWithinHosts(frames: seq<JsString>, n: nat, code: set<JsString>, red: Redaction)
    requires n <= |frames| && |HostsAlong(frames, n, code, red)| <= MAX_GROUP_HOSTS
    ensures |HostsAlong(frames, Reach(frames, n, code, red), code, red)| <= MAX_GROUP_HOSTS
    decreases |frames| - n
  {
    if n < |frames| && |HostsAlong(frames, n + 1, code, red)| <= MAX_GROUP_HOSTS {
      ReachIsWithinHosts(frames, n + 1, code, red);
    }
  }

  /** A published stack holds nothing but what frames the visit requested publish, within its bounds. */
  lemma PublishedShape(frames: seq<JsString>, code: set<JsString>, red: Redaction)
    requires Published(frames, code, red).Some?
    ensures var stack := Published(frames, code, red).value;
      && 1 <= |stack.hosts| <= MAX_GROUP_HOSTS && NoHostFollowsItself(stack.hosts)
      && |stack.scripts| <= MAX_GROUP_SCRIPTS && Distinct(stack.scripts)
      && (forall h :: h in stack.hosts ==> exists i :: 0 <= i < |frames| && IsNamed(frames[i], code, red) && red.host(frames[i]) == h)
      && (forall s :: s in stack.scripts ==>
           red.isAddress(s) && exists i :: 0 <= i < |frames| && IsNamed(frames[i], code, red) && red.url(frames[i]) == s)
  {
    var reach := Reach(frames, 0, code, red);
    ReachIsWithinHosts(frames, 0, code, red);
    HostsAreOfRequestedFrames(frames, reach, code, red);
    ScriptsAreOfRequestedFrames(frames, reach, code, red);
    assert forall s :: s in Published(frames, code, red).value.scripts ==> s in ScriptsAlong(frames, reach, code, red);
  }

  // ---- Group keys ----

  function Strings(texts: seq<JsString>): Value {
    Arr(seq(|texts|, i requires 0 <= i < |texts| => Str(texts[i])))
  }

  /** `JSON.stringify([hosts, namedScripts])` */
  function GroupKey(stack: Stack): JsString {
    Text(Arr([Strings(stack.hosts), Strings(stack.scripts)]))
  }

  lemma SameStrings(a: seq<JsString>, b: seq<JsString>)
    requires Strings(a) == Strings(b)
    ensures a == b
  {
    assert |Strings(a).items| == |a| && |Strings(b).items| == |b|;
    forall i | 0 <= i < |a|
      ensures a[i] == b[i]
    {
      assert Strings(a).items[i] == Str(a[i]) && Strings(b).items[i] == Str(b[i]);
    }
  }

  /** Groups are keyed by everything they publish. */
  lemma GroupKeyIsInjective(a: Stack, b: Stack)
    ensures GroupKey(a) == GroupKey(b) <==> a == b
  {
    if GroupKey(a) == GroupKey(b) {
      var x := Arr([Strings(a.hosts), Strings(a.scripts)]);
      var y := Arr([Strings(b.hosts), Strings(b.scripts)]);
      assert Plain(x.items[0]) && Plain(x.items[1]) && Plain(y.items[0]) && Plain(y.items[1]);
      ParseInvertsText(x);
      ParseInvertsText(y);
      assert x.items[0] == y.items[0] && x.items[1] == y.items[1];
      SameStrings(a.hosts, b.hosts);
      SameStrings(a.scripts, b.scripts);
    }
  }

  // ---- One observation ----

  /** One `Network.requestWillBeSent`; `frames` is None when it carries no stack or an empty one. */
  datatype Observed = Observed(rawUrl: JsString, code: bool, redirected: bool, frames: Option<seq<JsString>>)

  datatype Categorized = Categorized(category: Category, stack: Option<Stack>)

  /** A frame without a readable URL is the empty string here. */
  function StackFrameUrls(frames: seq<JsString>): seq<JsString> {
    var read := Take(frames, MAX_STACK_FRAMES);
    seq(|read|, i requires 0 <= i < |read| => WithoutFragment(read[i]))
  }

  function Categorize(o: Observed, code: set<JsString>, overflowed: bool, red: Redaction): Categorized {
    if o.redirected then Categorized(Redirected, None)
    else if o.frames.None? then Categorized(WithoutStack, None)
    else if overflowed then Categorized(NotListed, None)
    else
      match Published(StackFrameUrls(o.frames.value), code, red)
      case None => Categorized(WithoutNamedScript, None)
      case Some(stack) => Categorized(Group(GroupKey(stack)), Some(stack))
  }
}
