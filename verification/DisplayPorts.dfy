/** Port display for `docker ps` (api/common.go): sorting, grouping into ranges, and what the printed
    list says about the ports. */
module DisplayPorts {
  import opened Wrappers
  import opened Strings

  type uint16 = x: int | 0 <= x < 0x1_0000

  datatype Port = Port(ip: string, privatePort: uint16, publicPort: uint16, typ: string)

  /** Unsigned 16-bit increment. */
  function Inc16(x: uint16): uint16 {
    (x + 1) % 0x1_0000
  }

  // ---------------------------------------------------------------- sorting

  /** byPortInfo.Less */
  predicate Less(a: Port, b: Port) {
    if a.privatePort != b.privatePort then a.privatePort < b.privatePort
    else if a.ip != b.ip then Lex(a.ip, b.ip)
    else if a.publicPort != b.publicPort then a.publicPort < b.publicPort
    else Lex(a.typ, b.typ)
  }

  /** The order is total: ties are equal ports, so sorting has one outcome. */
  lemma LessIsTotal(a: Port, b: Port, c: Port)
    ensures !(Less(a, b) && Less(b, a))
    ensures a == b <==> !Less(a, b) && !Less(b, a)
    ensures !Less(b, a) && !Less(c, b) ==> !Less(c, a)
  {
    LexTrichotomy(a.ip, b.ip);
    LexTrichotomy(b.ip, c.ip);
    LexTrichotomy(a.ip, c.ip);
    LexTrichotomy(a.typ, b.typ);
    LexTrichotomy(b.typ, c.typ);
    LexTrichotomy(a.typ, c.typ);
    if Lex(a.ip, b.ip) && Lex(b.ip, c.ip) { LexTransitive(a.ip, b.ip, c.ip); }
    if Lex(a.typ, b.typ) && Lex(b.typ, c.typ) { LexTransitive(a.typ, b.typ, c.typ); }
  }

  predicate Sorted(ps: seq<Port>) {
    forall i, j :: 0 <= i < j < |ps| ==> !Less(ps[j], ps[i])
  }

  /** sort.Sort(byPortInfo(ports)) */
  method SortPorts(ports: seq<Port>) returns (out: seq<Port>)
    ensures Sorted(out) && multiset(out) == multiset(ports)
  {
    out := [];
    for i := 0 to |ports|
      invariant Sorted(out) && multiset(out) == multiset(ports[..i])
    {
      out := Insert(out, ports[i]);
      assert ports[..i + 1] == ports[..i] + [ports[i]];
    }
    assert ports[..|ports|] == ports;
  }

  method Insert(ps: seq<Port>, p: Port) returns (out: seq<Port>)
    requires Sorted(ps)
    ensures Sorted(out) && multiset(out) == multiset(ps) + multiset{p}
  {
    hide Less;
    var k := |ps|;
    while k > 0 && Less(p, ps[k - 1])
      invariant 0 <= k <= |ps|
      invariant forall j :: k <= j < |ps| ==> !Less(ps[j], p)
    {
      LessIsTotal(p, ps[k - 1], p);
      k := k - 1;
    }
    forall i | 0 <= i < k ensures !Less(p, ps[i]) {
      LessIsTotal(ps[i], ps[k - 1], p);
      if i == k - 1 { LessIsTotal(ps[i], p, p); }
    }
    out := ps[..k] + [p] + ps[k..];
    InsertedIsSorted(ps, p, k);
    assert ps == ps[..k] + ps[k..];
  }

  lemma InsertedIsSorted(ps: seq<Port>, p: Port, k: nat)
    requires Sorted(ps) && k <= |ps|
    requires forall i :: 0 <= i < k ==> !Less(p, ps[i])
    requires forall j :: k <= j < |ps| ==> !Less(ps[j], p)
    ensures Sorted(ps[..k] + [p] + ps[k..])
  {
    hide Less;
    var out := ps[..k] + [p] + ps[k..];
    assert forall i :: 0 <= i < k ==> out[i] == ps[i];
    assert out[k] == p;
    assert forall i :: k < i < |out| ==> out[i] == ps[i - 1];
  }

  // ---------------------------------------------------------------- keys

  function IndexOf(s: string, c: char): (i: nat)
    ensures i <= |s| && c !in s[..i] && (i < |s| ==> s[i] == c)
  {
    if s == "" || s[0] == c then 0
    else
      assert s[..1 + IndexOf(s[1..], c)] == [s[0]] + s[1..][..IndexOf(s[1..], c)];
      1 + IndexOf(s[1..], c)
  }

  lemma {:induction false} FirstIndex(s: string, c: char, k: nat)
    requires k < |s| && s[k] == c && c !in s[..k]
    ensures IndexOf(s, c) == k
    decreases k
  {
    if k > 0 {
      assert s[0] == s[..k][0];
      assert s[1..][..k - 1] == s[..k][1..];
      FirstIndex(s[1..], c, k - 1);
    }
  }

  /** strings.Split(s, "/") */
  function Split(s: string): (parts: seq<string>)
    ensures |parts| > 0 && forall i :: 0 <= i < |parts| ==> '/' !in parts[i]
  {
    var i := IndexOf(s, '/');
    if i == |s| then assert s[..i] == s; [s] else [s[..i]] + Split(s[i + 1..])
  }

  /** The group a port belongs to. */
  function Key(p: Port): string {
    if p.ip == "" then p.typ else p.ip + "/" + p.typ
  }

  function KeyIP(key: string): string {
    if |Split(key)| > 1 then Split(key)[0] else ""
  }

  function KeyType(key: string): string {
    if |Split(key)| > 1 then Split(key)[1] else Split(key)[0]
  }

  predicate SlashFree(p: Port) {
    '/' !in p.ip && '/' !in p.typ
  }

  lemma SplitNoSlash(s: string)
    requires '/' !in s
    ensures Split(s) == [s]
  {
  }

  /** Taking a key apart gives the port's address and type back exactly when neither holds a slash. */
  lemma KeyRoundTripIff(p: Port)
    ensures KeyIP(Key(p)) == p.ip && KeyType(Key(p)) == p.typ <==> SlashFree(p)
    ensures '/' !in KeyIP(Key(p)) && '/' !in KeyType(Key(p))
  {
    if SlashFree(p) {
      SplitNoSlash(p.typ);
      if p.ip != "" {
        var s := Key(p);
        assert s[|p.ip|] == '/' && s[..|p.ip|] == p.ip;
        FirstIndex(s, '/', |p.ip|);
        assert s[|p.ip| + 1..] == p.typ;
      }
    }
  }

  // ---------------------------------------------------------------- what the list says

  /** One exposed port as a reader of the list sees it; ports without an address show no public port. */
  datatype Exposed = Exposed(ip: string, privatePort: int, publicPort: Option<int>, typ: string)

  function Shown(p: Port): Exposed {
    Exposed(p.ip, p.privatePort, if p.ip == "" then None else Some(p.publicPort), p.typ)
  }

  datatype Item =
    | Range(ip: string, first: uint16, last: uint16, typ: string)
    | Mapping(port: Port)

  /** formGroup: "first-last/type", or "ip:first-last->first-last/type". */
  function FormGroup(key: string, first: uint16, last: uint16): Item {
    Range(KeyIP(key), first, last, KeyType(key))
  }

  function One(ip: string, typ: string, k: int): Exposed {
    Exposed(ip, k, if ip == "" then None else Some(k), typ)
  }

  function ExpandRange(ip: string, typ: string, first: int, last: int): multiset<Exposed>
    decreases last - first
  {
    if first > last then multiset{} else ExpandRange(ip, typ, first, last - 1) + multiset{One(ip, typ, last)}
  }

  function ExpandItem(item: Item): multiset<Exposed> {
    match item
    case Range(ip, first, last, typ) => ExpandRange(ip, typ, first, last)
    case Mapping(p) => multiset{Shown(p)}
  }

  /** Everything a list of items says. */
  function Expand(items: seq<Item>): multiset<Exposed> {
    if items == [] then multiset{} else Expand(items[..|items| - 1]) + ExpandItem(items[|items| - 1])
  }

  lemma {:induction false} ExpandConcat(a: seq<Item>, b: seq<Item>)
    ensures Expand(a + b) == Expand(a) + Expand(b)
    decreases |b|
  {
    if b == [] {
      assert a + b == a;
    } else {
      assert (a + b)[..|a + b| - 1] == a + b[..|b| - 1];
      ExpandConcat(a, b[..|b| - 1]);
    }
  }

  lemma ExpandAppend(items: seq<Item>, item: Item)
    ensures Expand(items + [item]) == Expand(items) + ExpandItem(item)
  {
    assert (items + [item])[..|items|] == items;
  }

  /** Ports that join a group; the others are printed one by one. */
  predicate Grouped(p: Port) {
    p.ip == "" || p.publicPort == p.privatePort
  }

  /** How a port comes out: a grouped one through its key. */
  function Rendered(p: Port): Exposed {
    if Grouped(p) then One(KeyIP(Key(p)), KeyType(Key(p)), p.privatePort) else Shown(p)
  }

  /** The images of all ports under f, counted. */
  function Tally(f: Port -> Exposed, ports: seq<Port>): multiset<Exposed> {
    if ports == [] then multiset{} else Tally(f, ports[..|ports| - 1]) + multiset{f(ports[|ports| - 1])}
  }

  lemma {:induction false} TallyWithout(f: Port -> Exposed, ps: seq<Port>, k: nat)
    requires k < |ps|
    ensures Tally(f, ps) == Tally(f, ps[..k] + ps[k + 1..]) + multiset{f(ps[k])}
    decreases |ps|
  {
    var front, last := ps[..|ps| - 1], ps[|ps| - 1];
    assert Tally(f, ps) == Tally(f, front) + multiset{f(last)};
    hide Tally;
    if k == |ps| - 1 {
      assert ps[..k] + ps[k + 1..] == front;
    } else {
      var inner := front[..k] + front[k + 1..];
      TallyWithout(f, front, k);
      FrontWithout(ps, k);
      TallyAppend(f, inner, last);
    }
  }

  lemma FrontWithout(ps: seq<Port>, k: nat)
    requires k < |ps| - 1
    ensures var front := ps[..|ps| - 1];
            ps[..k] + ps[k + 1..] == front[..k] + front[k + 1..] + [ps[|ps| - 1]] && front[k] == ps[k]
  {
  }

  lemma WithoutOne(ps: seq<Port>, k: nat)
    requires k < |ps|
    ensures multiset(ps[..k] + ps[k + 1..]) == multiset(ps) - multiset{ps[k]}
  {
    assert ps == ps[..k] + [ps[k]] + ps[k + 1..];
  }

  /** Permutations lose the same port to stay permutations. */
  lemma MatchFirst(a: seq<Port>, b: seq<Port>) returns (k: nat, a': seq<Port>, b': seq<Port>)
    requires multiset(a) == multiset(b) && a != []
    ensures k < |b| && b[k] == a[0] && a' == a[..0] + a[1..] && b' == b[..k] + b[k + 1..]
    ensures multiset(a') == multiset(b') && |a'| < |a|
  {
    assert a[0] in multiset(b);
    k :| 0 <= k < |b| && b[k] == a[0];
    a', b' := a[..0] + a[1..], b[..k] + b[k + 1..];
    WithoutOne(a, 0);
    WithoutOne(b, k);
  }

  /** The tally does not depend on the order. */
  lemma {:induction false} TallyOfPermutation(f: Port -> Exposed, a: seq<Port>, b: seq<Port>)
    requires multiset(a) == multiset(b)
    ensures Tally(f, a) == Tally(f, b)
    decreases |a|
  {
    if a == [] {
      assert |b| == |multiset(b)|;
    } else {
      var k, a', b' := MatchFirst(a, b);
      TallyOfPermutation(f, a', b');
      TallyWithout(f, a, 0);
      TallyWithout(f, b, k);
      hide Tally;
    }
  }

  // ---------------------------------------------------------------- grouping

  datatype Group = Group(first: uint16, last: uint16)

  /** What the open groups say, in the order their keys were created. */
  function OpenItems(keys: seq<string>, groups: map<string, Group>): seq<Item>
    requires forall k :: k in keys ==> k in groups
  {
    if keys == [] then []
    else
      var k := keys[|keys| - 1];
      OpenItems(keys[..|keys| - 1], groups) + [FormGroup(k, groups[k].first, groups[k].last)]
  }

  predicate Distinct(keys: seq<string>) {
    forall i, j :: 0 <= i < j < |keys| ==> keys[i] != keys[j]
  }

  lemma {:induction false} OpenUntouched(keys: seq<string>, groups: map<string, Group>, k: string, g: Group)
    requires (forall x :: x in keys ==> x in groups) && k !in keys
    ensures OpenItems(keys, groups[k := g]) == OpenItems(keys, groups)
    decreases |keys|
  {
    if keys != [] {
      OpenUntouched(keys[..|keys| - 1], groups, k, g);
    }
  }

  type Bag = multiset<Exposed>

  lemma AddBoth(a: Bag, b: Bag, c: Bag, d: Bag, x: Bag)
    requires a + b == c + d
    ensures a + x + b == c + x + d
  {
    assert a + x + b == (a + b) + x;
    assert c + x + d == (c + d) + x;
  }

  lemma Cancel(a: Bag, b: Bag, c: Bag, d: Bag, x: Bag)
    requires a + b == c + d && d == b + x
    ensures a == c + x
  {
    forall e: Exposed ensures a[e] == (c + x)[e] {
      assert (a + b)[e] == (c + d)[e];
    }
  }

  lemma Regroup(r: Bag, a: Bag, h: Bag, x: Bag)
    ensures r + (a + x) + h == r + a + h + x
    ensures (r + x) + a + h == r + a + h + x
  {
  }

  /** Replacing one group changes the total by that group alone. */
  lemma {:induction false} OpenReplaced(keys: seq<string>, groups: map<string, Group>, k: string, g: Group)
    requires (forall x :: x in keys ==> x in groups) && Distinct(keys) && k in keys
    ensures Expand(OpenItems(keys, groups[k := g])) + ExpandItem(FormGroup(k, groups[k].first, groups[k].last))
            == Expand(OpenItems(keys, groups)) + ExpandItem(FormGroup(k, g.first, g.last))
    decreases |keys|
  {
    hide FormGroup, ExpandItem, Expand;
    var front, x := keys[..|keys| - 1], keys[|keys| - 1];
    ExpandAppend(OpenItems(front, groups), FormGroup(x, groups[x].first, groups[x].last));
    ExpandAppend(OpenItems(front, groups[k := g]), FormGroup(x, groups[k := g][x].first, groups[k := g][x].last));
    if x == k {
      OpenUntouched(front, groups, k, g);
    } else {
      OpenReplaced(front, groups, k, g);
      AddBoth(Expand(OpenItems(front, groups[k := g])), ExpandItem(FormGroup(k, groups[k].first, groups[k].last)),
              Expand(OpenItems(front, groups)), ExpandItem(FormGroup(k, g.first, g.last)),
              ExpandItem(FormGroup(x, groups[x].first, groups[x].last)));
    }
  }

  predicate ProperItem(item: Item) {
    item.Range? ==> item.first <= item.last
  }

  /** The open groups: one per key, running upwards, none ending beyond `bound`. */
  ghost predicate Tidy(keys: seq<string>, groups: map<string, Group>, bound: int) {
    && Distinct(keys) && (forall k :: k in keys <==> k in groups)
    && (forall k :: k in groups ==> groups[k].first <= groups[k].last <= bound)
  }

  /** All that has been printed or is still open. */
  ghost function Total(result: seq<Item>, keys: seq<string>, groups: map<string, Group>, hosts: seq<Item>): multiset<Exposed>
    requires forall k :: k in keys ==> k in groups
  {
    Expand(result) + Expand(OpenItems(keys, groups)) + Expand(hosts)
  }

  lemma TallyAppend(f: Port -> Exposed, ps: seq<Port>, p: Port)
    ensures Tally(f, ps + [p]) == Tally(f, ps) + multiset{f(p)}
  {
    assert (ps + [p])[..|ps|] == ps;
  }

  lemma SingleRange(key: string, k: uint16)
    ensures ExpandItem(FormGroup(key, k, k)) == multiset{One(KeyIP(key), KeyType(key), k)}
  {
    assert ExpandRange(KeyIP(key), KeyType(key), k, k - 1) == multiset{};
  }

  lemma LongerRange(key: string, first: uint16, last: uint16)
    requires first <= last && last + 1 < 0x1_0000
    ensures ExpandItem(FormGroup(key, first, last + 1))
            == ExpandItem(FormGroup(key, first, last)) + multiset{One(KeyIP(key), KeyType(key), last + 1)}
  {
  }

  /** A new group, a longer group, a closed group with a new one, and a mapping each add one port. */
  lemma OpenGroup(result: seq<Item>, keys: seq<string>, groups: map<string, Group>, hosts: seq<Item>, bound: int, k: string, port: uint16)
    requires Tidy(keys, groups, bound) && bound <= port && k !in groups
    ensures var groups' := groups[k := Group(port, port)];
            && Tidy(keys + [k], groups', port)
            && Total(result, keys + [k], groups', hosts) == Total(result, keys, groups, hosts) + multiset{One(KeyIP(k), KeyType(k), port)}
  {
    hide FormGroup, ExpandItem, Expand, KeyIP, KeyType;
    var g := Group(port, port);
    OpenUntouched(keys, groups, k, g);
    assert (keys + [k])[..|keys|] == keys;
    ExpandAppend(OpenItems(keys, groups), FormGroup(k, port, port));
    SingleRange(k, port);
    Regroup(Expand(result), Expand(OpenItems(keys, groups)), Expand(hosts), multiset{One(KeyIP(k), KeyType(k), port)});
    TidyAdd(keys, groups, bound, k, port);
    hide Tidy;
  }

  lemma TidyAdd(keys: seq<string>, groups: map<string, Group>, bound: int, k: string, port: uint16)
    requires Tidy(keys, groups, bound) && bound <= port && k !in groups
    ensures Tidy(keys + [k], groups[k := Group(port, port)], port)
  {
    assert (keys + [k])[|keys|] == k;
  }

  lemma ExtendGroup(result: seq<Item>, keys: seq<string>, groups: map<string, Group>, hosts: seq<Item>, bound: int, k: string, port: uint16)
    requires Tidy(keys, groups, bound) && bound <= port && k in groups && port == groups[k].last + 1
    ensures var groups' := groups[k := groups[k].(last := port)];
            && Tidy(keys, groups', port)
            && Total(result, keys, groups', hosts) == Total(result, keys, groups, hosts) + multiset{One(KeyIP(k), KeyType(k), port)}
  {
    hide FormGroup, ExpandItem, Expand, KeyIP, KeyType;
    OpenReplaced(keys, groups, k, groups[k].(last := port));
    LongerRange(k, groups[k].first, groups[k].last);
    var x := multiset{One(KeyIP(k), KeyType(k), port)};
    Cancel(Expand(OpenItems(keys, groups[k := groups[k].(last := port)])), ExpandItem(FormGroup(k, groups[k].first, groups[k].last)),
           Expand(OpenItems(keys, groups)), ExpandItem(FormGroup(k, groups[k].first, port)), x);
    Regroup(Expand(result), Expand(OpenItems(keys, groups)), Expand(hosts), x);
  }

  lemma CloseGroup(result: seq<Item>, keys: seq<string>, groups: map<string, Group>, hosts: seq<Item>, bound: int, k: string, port: uint16)
    requires Tidy(keys, groups, bound) && bound <= port && k in groups
    ensures var groups' := groups[k := Group(port, port)];
            && Tidy(keys, groups', port)
            && Total(result + [FormGroup(k, groups[k].first, groups[k].last)], keys, groups', hosts)
               == Total(result, keys, groups, hosts) + multiset{One(KeyIP(k), KeyType(k), port)}
  {
    hide FormGroup, ExpandItem, Expand, KeyIP, KeyType;
    OpenReplaced(keys, groups, k, Group(port, port));
    ExpandAppend(result, FormGroup(k, groups[k].first, groups[k].last));
    SingleRange(k, port);
    var x, was := multiset{One(KeyIP(k), KeyType(k), port)}, ExpandItem(FormGroup(k, groups[k].first, groups[k].last));
    var open, open' := Expand(OpenItems(keys, groups)), Expand(OpenItems(keys, groups[k := Group(port, port)]));
    calc {
      (Expand(result) + was) + open' + Expand(hosts);
      Expand(result) + (open' + was) + Expand(hosts);
      Expand(result) + (open + x) + Expand(hosts);
      { Regroup(Expand(result), open, Expand(hosts), x); }
      Expand(result) + open + Expand(hosts) + x;
    }
  }

  lemma AddMapping(result: seq<Item>, keys: seq<string>, groups: map<string, Group>, hosts: seq<Item>, p: Port)
    requires forall k :: k in keys ==> k in groups
    ensures Total(result, keys, groups, hosts + [Mapping(p)]) == Total(result, keys, groups, hosts) + multiset{Shown(p)}
  {
    ExpandAppend(hosts, Mapping(p));
  }

  /** The port before position i, which bounds the open groups. */
  function Bound(ports: seq<Port>, i: nat): int
    requires i <= |ports|
  {
    if i == 0 then 0 else ports[i - 1].privatePort
  }

  lemma BoundGrows(ports: seq<Port>, i: nat)
    requires Sorted(ports) && i < |ports|
    ensures Bound(ports, i) <= ports[i].privatePort == Bound(ports, i + 1)
  {
    if i > 0 {
      assert !Less(ports[i], ports[i - 1]);
    }
  }

  /** A group that ends no later than the next port is followed by it in 16 bits exactly when it is in
      the integers: wrapping round to 0 never matches. */
  lemma NoWrap(last: uint16, port: uint16)
    requires last <= port
    ensures port == Inc16(last) <==> port == last + 1
  {
  }

  lemma TidyWeaken(keys: seq<string>, groups: map<string, Group>, bound: int, bound': int)
    requires Tidy(keys, groups, bound) && bound <= bound'
    ensures Tidy(keys, groups, bound')
  {
  }

  // ---------------------------------------------------------------- the list, position by position

  /** The last of the first n ports that joined the group k. */
  function LastWith(ports: seq<Port>, n: nat, k: string): (h: Option<nat>)
    requires n <= |ports|
    ensures h.Some? ==> h.value < n && Grouped(ports[h.value]) && Key(ports[h.value]) == k
  {
    if n == 0 then None
    else if Grouped(ports[n - 1]) && Key(ports[n - 1]) == k then Some(n - 1)
    else LastWith(ports, n - 1, k)
  }

  /** Where the run of consecutive ports begins that ends with port j. */
  function RunStart(ports: seq<Port>, j: nat): uint16
    requires j < |ports|
    decreases j
  {
    match LastWith(ports, j, Key(ports[j]))
    case Some(h) => if ports[h].privatePort + 1 == ports[j].privatePort then RunStart(ports, h) else ports[j].privatePort
    case None => ports[j].privatePort
  }

  function RangeAt(ports: seq<Port>, j: nat): Item
    requires j < |ports|
  {
    FormGroup(Key(ports[j]), RunStart(ports, j), ports[j].privatePort)
  }

  /** The ranges closed by the first n ports: each by the next port of its group, if that is not the next number. */
  function ClosedRanges(ports: seq<Port>, n: nat): seq<Item>
    requires n <= |ports|
  {
    if n == 0 then []
    else
      var p, h := ports[n - 1], LastWith(ports, n - 1, Key(ports[n - 1]));
      ClosedRanges(ports, n - 1)
      + if Grouped(p) && h.Some? && ports[h.value].privatePort + 1 != p.privatePort then [RangeAt(ports, h.value)] else []
  }

  /** The groups in the order of their first ports. */
  function KeysInOrder(ports: seq<Port>, n: nat): seq<string>
    requires n <= |ports|
  {
    if n == 0 then []
    else
      var k := Key(ports[n - 1]);
      KeysInOrder(ports, n - 1) + if Grouped(ports[n - 1]) && LastWith(ports, n - 1, k).None? then [k] else []
  }

  /** The last range of each of these groups. */
  function LastRanges(ports: seq<Port>, keys: seq<string>): seq<Item> {
    if keys == [] then []
    else
      LastRanges(ports, keys[..|keys| - 1])
      + match LastWith(ports, |ports|, keys[|keys| - 1])
        case Some(h) => [RangeAt(ports, h)]
        case None => []
  }

  function HostItems(ports: seq<Port>, n: nat): seq<Item>
    requires n <= |ports|
  {
    if n == 0 then [] else HostItems(ports, n - 1) + if Grouped(ports[n - 1]) then [] else [Mapping(ports[n - 1])]
  }

  /** The printed list of sorted ports: the closed ranges, the last range of each group in the order the groups
      appeared, and the host mappings. */
  function Printed(ports: seq<Port>): seq<Item> {
    ClosedRanges(ports, |ports|) + LastRanges(ports, KeysInOrder(ports, |ports|)) + HostItems(ports, |ports|)
  }

  /** The open groups after the first n ports. */
  ghost predicate GroupsAre(ports: seq<Port>, n: nat, groups: map<string, Group>)
    requires n <= |ports|
  {
    forall k :: match LastWith(ports, n, k)
                case Some(h) => k in groups && groups[k] == Group(RunStart(ports, h), ports[h].privatePort)
                case None => k !in groups
  }

  /** The loop's state after the first n ports. */
  ghost predicate LoopAt(ports: seq<Port>, n: nat, result: seq<Item>, keys: seq<string>, groups: map<string, Group>, hosts: seq<Item>)
    requires n <= |ports|
  {
    && result == ClosedRanges(ports, n) && keys == KeysInOrder(ports, n) && hosts == HostItems(ports, n)
    && GroupsAre(ports, n, groups)
  }

  /** What taking in a grouped port does to result, keys and groups. */
  ghost predicate TakenIn(result: seq<Item>, keys: seq<string>, groups: map<string, Group>, p: Port,
                          result': seq<Item>, keys': seq<string>, groups': map<string, Group>)
  {
    var k, current := Key(p), p.privatePort;
    if k !in groups then result' == result && keys' == keys + [k] && groups' == groups[k := Group(current, current)]
    else if groups[k].last + 1 == current then result' == result && keys' == keys && groups' == groups[k := Group(groups[k].first, current)]
    else
      && result' == result + [FormGroup(k, groups[k].first, groups[k].last)] && keys' == keys
      && groups' == groups[k := Group(current, current)]
  }

  lemma LoopTakesIn(ports: seq<Port>, n: nat, result: seq<Item>, keys: seq<string>, groups: map<string, Group>, hosts: seq<Item>,
                    result': seq<Item>, keys': seq<string>, groups': map<string, Group>)
    requires n < |ports| && LoopAt(ports, n, result, keys, groups, hosts) && Grouped(ports[n])
    requires TakenIn(result, keys, groups, ports[n], result', keys', groups')
    ensures LoopAt(ports, n + 1, result', keys', groups', hosts)
  {
    ListsTakeIn(ports, n, result, keys, groups, hosts, result', keys', groups');
    GroupsTakeIn(ports, n, result, keys, groups, result', keys', groups');
    hide ClosedRanges, KeysInOrder, HostItems, GroupsAre, TakenIn;
  }

  lemma ListsTakeIn(ports: seq<Port>, n: nat, result: seq<Item>, keys: seq<string>, groups: map<string, Group>, hosts: seq<Item>,
                    result': seq<Item>, keys': seq<string>, groups': map<string, Group>)
    requires n < |ports| && LoopAt(ports, n, result, keys, groups, hosts) && Grouped(ports[n])
    requires TakenIn(result, keys, groups, ports[n], result', keys', groups')
    ensures result' == ClosedRanges(ports, n + 1) && keys' == KeysInOrder(ports, n + 1) && hosts == HostItems(ports, n + 1)
  {
    hide Key, FormGroup, Grouped, LastWith, RunStart;
    var k := Key(ports[n]);
    assert match LastWith(ports, n, k)
           case Some(h) => k in groups && groups[k] == Group(RunStart(ports, h), ports[h].privatePort)
           case None => k !in groups;
  }

  lemma GroupsTakeIn(ports: seq<Port>, n: nat, result: seq<Item>, keys: seq<string>, groups: map<string, Group>,
                     result': seq<Item>, keys': seq<string>, groups': map<string, Group>)
    requires n < |ports| && GroupsAre(ports, n, groups) && Grouped(ports[n])
    requires TakenIn(result, keys, groups, ports[n], result', keys', groups')
    ensures GroupsAre(ports, n + 1, groups')
  {
    hide Key, FormGroup, Grouped;
    var k := Key(ports[n]);
    assert match LastWith(ports, n, k)
           case Some(h) => k in groups && groups[k] == Group(RunStart(ports, h), ports[h].privatePort)
           case None => k !in groups;
    assert LastWith(ports, n + 1, k) == Some(n);
    forall x | x != k ensures LastWith(ports, n + 1, x) == LastWith(ports, n, x) {}
    assert groups'[k] == Group(RunStart(ports, n), ports[n].privatePort);
    hide RunStart;
  }

  lemma LoopMaps(ports: seq<Port>, n: nat, result: seq<Item>, keys: seq<string>, groups: map<string, Group>, hosts: seq<Item>)
    requires n < |ports| && LoopAt(ports, n, result, keys, groups, hosts) && !Grouped(ports[n])
    ensures LoopAt(ports, n + 1, result, keys, groups, hosts + [Mapping(ports[n])])
  {
    forall x ensures LastWith(ports, n + 1, x) == LastWith(ports, n, x) {}
  }

  lemma {:induction false} LastRangesAreOpen(ports: seq<Port>, keys: seq<string>, groups: map<string, Group>)
    requires GroupsAre(ports, |ports|, groups) && forall k :: k in keys ==> k in groups
    ensures LastRanges(ports, keys) == OpenItems(keys, groups)
    decreases |keys|
  {
    hide Key, FormGroup, Grouped;
    if keys != [] {
      var k := keys[|keys| - 1];
      LastRangesAreOpen(ports, keys[..|keys| - 1], groups);
      assert LastWith(ports, |ports|, k).Some?;
    }
  }

  // ---------------------------------------------------------------- ranges of one group do not touch

  ghost predicate NoneBetween(tags: seq<string>, i: nat, j: nat)
    requires i < j <= |tags|
  {
    forall m :: i < m < j ==> tags[m] != tags[i]
  }

  lemma NoneBetweenLonger(tags: seq<string>, more: seq<string>, i: nat, j: nat)
    requires i < j <= |tags|
    ensures NoneBetween(tags + more, i, j) <==> NoneBetween(tags, i, j)
  {
    var all := tags + more;
    assert forall m :: i <= m < j ==> all[m] == tags[m];
  }

  /** A range that may follow another one of its group, with none of the group between if `next`. */
  predicate Follows(a: Item, first: int, next: bool)
    requires a.Range?
  {
    a.last <= first && (next ==> first != a.last + 1)
  }

  /** `tags` are the groups of the ranges. */
  predicate Tagged(result: seq<Item>, tags: seq<string>) {
    && |tags| == |result|
    && forall j :: 0 <= j < |result| ==>
         result[j].Range? && result[j].ip == KeyIP(tags[j]) && result[j].typ == KeyType(tags[j])
  }

  ghost predicate PairsFollow(result: seq<Item>, tags: seq<string>)
    requires Tagged(result, tags)
  {
    forall i, j :: 0 <= i < j < |result| && tags[i] == tags[j] ==> Follows(result[i], result[j].first, NoneBetween(tags, i, j))
  }

  ghost predicate OpenFollows(result: seq<Item>, tags: seq<string>, groups: map<string, Group>)
    requires Tagged(result, tags)
  {
    forall i :: 0 <= i < |result| ==>
      tags[i] in groups && Follows(result[i], groups[tags[i]].first, NoneBetween(tags, i, |tags|))
  }

  /** Two ranges of a group rise, and unless another one of the group lies between, leave a gap; and so
      does the group that is open. */
  ghost predicate Gapped(result: seq<Item>, tags: seq<string>, groups: map<string, Group>) {
    Tagged(result, tags) && PairsFollow(result, tags) && OpenFollows(result, tags, groups)
  }

  lemma GappedOpens(result: seq<Item>, tags: seq<string>, groups: map<string, Group>, k: string, g: Group)
    requires Gapped(result, tags, groups) && (k !in groups || g.first == groups[k].first)
    ensures Gapped(result, tags, groups[k := g])
  {
    hide Tagged, Follows, NoneBetween;
  }

  lemma PairsOneMore(result: seq<Item>, tags: seq<string>, groups: map<string, Group>, k: string, range: Item)
    requires Gapped(result, tags, groups) && k in groups && Tagged(result + [range], tags + [k]) && range.Range? && range.first == groups[k].first
    ensures PairsFollow(result + [range], tags + [k])
  {
    hide Follows, NoneBetween;
    var result', tags' := result + [range], tags + [k];
    forall i, j | 0 <= i < j < |result'| && tags'[i] == tags'[j]
      ensures Follows(result'[i], result'[j].first, NoneBetween(tags', i, j))
    {
      NoneBetweenLonger(tags, [k], i, j);
      assert tags'[i] == tags[i] && result'[i] == result[i];
      if j < |tags| { assert tags'[j] == tags[j] && result'[j] == result[j]; }
    }
  }

  lemma OpenOneMore(result: seq<Item>, tags: seq<string>, groups: map<string, Group>, k: string, range: Item, port: uint16)
    requires Gapped(result, tags, groups) && k in groups && Tagged(result + [range], tags + [k]) && range.Range?
    requires groups[k].first <= groups[k].last == range.last <= port && port != range.last + 1
    ensures OpenFollows(result + [range], tags + [k], groups[k := Group(port, port)])
  {
    var result', tags' := result + [range], tags + [k];
    var n := |result|;
    forall i | 0 <= i <= n
      ensures tags'[i] in groups
      ensures Follows(result'[i], if tags'[i] == k then port else groups[tags'[i]].first, NoneBetween(tags', i, n + 1))
    {
      if i < n {
        assert tags'[i] == tags[i] && result'[i] == result[i];
        assert tags[i] in groups && Follows(result[i], groups[tags[i]].first, NoneBetween(tags, i, n));
        LastNotBetween(tags, k, i);
      }
    }
  }

  lemma LastNotBetween(tags: seq<string>, k: string, i: nat)
    requires i < |tags|
    ensures NoneBetween(tags + [k], i, |tags| + 1) <==> NoneBetween(tags, i, |tags|) && tags[i] != k
  {
    var all := tags + [k];
    assert all[|tags|] == k && forall m :: 0 <= m < |tags| ==> all[m] == tags[m];
  }

  lemma GappedCloses(result: seq<Item>, tags: seq<string>, groups: map<string, Group>, k: string, port: uint16)
    requires Gapped(result, tags, groups) && k in groups && groups[k].first <= groups[k].last <= port && port != groups[k].last + 1
    ensures Gapped(result + [FormGroup(k, groups[k].first, groups[k].last)], tags + [k], groups[k := Group(port, port)])
  {
    var range := FormGroup(k, groups[k].first, groups[k].last);
    assert Tagged(result + [range], tags + [k]);
    PairsOneMore(result, tags, groups, k, range);
    OpenOneMore(result, tags, groups, k, range, port);
  }

  lemma GappedTakesIn(result: seq<Item>, tags: seq<string>, keys: seq<string>, groups: map<string, Group>, bound: int, p: Port,
                      result': seq<Item>, keys': seq<string>, groups': map<string, Group>) returns (tags': seq<string>)
    requires Gapped(result, tags, groups) && Tidy(keys, groups, bound) && bound <= p.privatePort
    requires TakenIn(result, keys, groups, p, result', keys', groups')
    ensures Gapped(result', tags', groups')
  {
    hide Key, Gapped, FormGroup;
    var k, current := Key(p), p.privatePort;
    if k in groups && groups[k].last + 1 != current {
      GappedCloses(result, tags, groups, k, current);
      tags' := tags + [k];
    } else {
      GappedOpens(result, tags, groups, k, groups'[k]);
      tags' := tags;
    }
  }

  /** The key that address and type make. */
  function Rekey(ip: string, typ: string): string {
    if ip == "" then typ else ip + "/" + typ
  }

  predicate CleanKey(k: string) {
    Rekey(KeyIP(k), KeyType(k)) == k
  }

  predicate SameGroup(a: Item, b: Item) {
    a.Range? && b.Range? && a.ip == b.ip && a.typ == b.typ
  }

  /** Two ranges of one address and type rise, and unless another one lies between leave a gap. */
  ghost predicate Separated(items: seq<Item>) {
    forall i, j :: 0 <= i < j < |items| && SameGroup(items[i], items[j]) ==>
      && items[i].last <= items[j].first
      && ((forall m :: i < m < j ==> !SameGroup(items[i], items[m])) ==> items[j].first != items[i].last + 1)
  }

  lemma {:induction false} OpenItemAt(keys: seq<string>, groups: map<string, Group>, m: nat)
    requires (forall k :: k in keys ==> k in groups) && m < |keys|
    ensures |OpenItems(keys, groups)| == |keys|
    ensures OpenItems(keys, groups)[m] == FormGroup(keys[m], groups[keys[m]].first, groups[keys[m]].last)
    decreases |keys|
  {
    hide FormGroup;
    if |keys| > 1 {
      OpenItemAt(keys[..|keys| - 1], groups, if m < |keys| - 1 then m else 0);
    } else {
      assert OpenItems(keys[..|keys| - 1], groups) == [];
    }
  }

  /** The closed ranges and the open ones, with their groups. */
  lemma AllTagged(result: seq<Item>, tags: seq<string>, keys: seq<string>, groups: map<string, Group>)
    requires Gapped(result, tags, groups) && (forall k :: k in keys ==> k in groups)
    ensures Tagged(result + OpenItems(keys, groups), tags + keys)
  {
    var items, all := result + OpenItems(keys, groups), tags + keys;
    OpenItemsCount(keys, groups);
    forall j | 0 <= j < |items| ensures items[j].Range? && items[j].ip == KeyIP(all[j]) && items[j].typ == KeyType(all[j]) {
      if j >= |tags| { OpenItemAt(keys, groups, j - |tags|); }
    }
  }

  lemma {:induction false} OpenItemsCount(keys: seq<string>, groups: map<string, Group>)
    requires forall k :: k in keys ==> k in groups
    ensures |OpenItems(keys, groups)| == |keys|
    decreases |keys|
  {
    if keys != [] { OpenItemsCount(keys[..|keys| - 1], groups); }
  }

  lemma AllFollow(result: seq<Item>, tags: seq<string>, keys: seq<string>, groups: map<string, Group>)
    requires Gapped(result, tags, groups) && Distinct(keys) && (forall k :: k in keys ==> k in groups)
    requires Tagged(result + OpenItems(keys, groups), tags + keys)
    ensures PairsFollow(result + OpenItems(keys, groups), tags + keys)
  {
    hide Gapped, Distinct, Follows, NoneBetween, OpenItems;
    var items, all := result + OpenItems(keys, groups), tags + keys;
    forall i, j | 0 <= i < j < |items| && all[i] == all[j]
      ensures Follows(items[i], items[j].first, NoneBetween(all, i, j))
    {
      PairFollows(result, tags, keys, groups, i, j);
    }
  }

  lemma PairFollows(result: seq<Item>, tags: seq<string>, keys: seq<string>, groups: map<string, Group>, i: nat, j: nat)
    requires Gapped(result, tags, groups) && Distinct(keys) && (forall k :: k in keys ==> k in groups)
    requires Tagged(result + OpenItems(keys, groups), tags + keys)
    requires i < j < |tags + keys| && (tags + keys)[i] == (tags + keys)[j]
    ensures var items := result + OpenItems(keys, groups);
            Follows(items[i], items[j].first, NoneBetween(tags + keys, i, j))
  {
    hide OpenItems, FormGroup, Follows, NoneBetween, KeyIP, KeyType;
    var n := |tags|;
    OpenItemsCount(keys, groups);
    if j < n {
      NoneBetweenLonger(tags, keys, i, j);
    } else {
      FirstComesBefore(tags, keys, i, j);
      hide Distinct;
      OpenFirst(keys, groups, j - n);
      assert Follows(result[i], groups[tags[i]].first, NoneBetween(tags, i, n));
      NoneBetweenShorter(tags + keys, i, n, j);
      NoneBetweenLonger(tags, keys, i, n);
      FollowsWeaker(result[i], groups[tags[i]].first, NoneBetween(tags, i, n), NoneBetween(tags + keys, i, j));
    }
  }

  lemma FirstComesBefore(tags: seq<string>, keys: seq<string>, i: nat, j: nat)
    requires Distinct(keys) && i < j < |tags + keys| && (tags + keys)[i] == (tags + keys)[j] && j >= |tags|
    ensures i < |tags| && tags[i] == keys[j - |tags|]
  {
  }

  lemma NoneBetweenShorter(tags: seq<string>, i: nat, n: nat, j: nat)
    requires i < n <= j <= |tags|
    ensures NoneBetween(tags, i, j) ==> NoneBetween(tags, i, n)
  {
  }

  lemma FollowsWeaker(a: Item, first: int, next: bool, next': bool)
    requires a.Range? && Follows(a, first, next) && (next' ==> next)
    ensures Follows(a, first, next')
  {
  }

  lemma TagsMatch(result: seq<Item>, tags: seq<string>)
    requires Tagged(result, tags)
    ensures |tags| == |result| && forall j :: 0 <= j < |result| ==> result[j].Range?
  {
  }

  lemma OpenFirst(keys: seq<string>, groups: map<string, Group>, m: nat)
    requires (forall k :: k in keys ==> k in groups) && m < |keys|
    ensures |OpenItems(keys, groups)| == |keys| && OpenItems(keys, groups)[m].Range?
    ensures OpenItems(keys, groups)[m].first == groups[keys[m]].first
  {
    OpenItemAt(keys, groups, m);
  }

  /** Ranges whose groups' keys can be made again from address and type, followed by mappings. */
  lemma FollowingIsSeparated(ranges: seq<Item>, tags: seq<string>, hosts: seq<Item>)
    requires Tagged(ranges, tags) && PairsFollow(ranges, tags)
    requires (forall k :: k in tags ==> CleanKey(k)) && forall h :: h in hosts ==> h.Mapping?
    ensures Separated(ranges + hosts)
  {
    var items, n := ranges + hosts, |ranges|;
    forall i, j | 0 <= i < n && 0 <= j < n ensures SameGroup(ranges[i], ranges[j]) <==> tags[i] == tags[j] {
      assert tags[i] in tags && tags[j] in tags;
    }
    TagsMatch(ranges, tags);
    forall j | n <= j < |items| ensures items[j].Mapping? {
      assert items[j] == hosts[j - n] && hosts[j - n] in hosts;
    }
    hide KeyIP, KeyType, CleanKey, Tagged;
    forall i, j | 0 <= i < j < |items| && SameGroup(items[i], items[j])
      ensures items[i].last <= items[j].first
      ensures (forall m :: i < m < j ==> !SameGroup(items[i], items[m])) ==> items[j].first != items[i].last + 1
    {
      assert j < n;
      assert items[i] == ranges[i] && items[j] == ranges[j] && tags[i] == tags[j];
      assert Follows(ranges[i], ranges[j].first, NoneBetween(tags, i, j));
      if forall m :: i < m < j ==> !SameGroup(items[i], items[m]) {
        forall m | i < m < j ensures tags[m] != tags[i] {
          assert items[m] == ranges[m];
        }
      }
    }
  }

  // ---------------------------------------------------------------- the ranges are the maximal stretches

  /** A grouped port with this address, type and number. */
  ghost predicate HasPort(ports: seq<Port>, ip: string, typ: string, n: int) {
    exists p :: p in ports && Grouped(p) && p.ip == ip && p.typ == typ && p.privatePort == n
  }

  /** All of the range's numbers are ports, and neither the number before nor the one after it is. */
  ghost predicate Stretch(ports: seq<Port>, x: Item)
    requires x.Range?
  {
    && x.first <= x.last
    && (forall n :: x.first <= n <= x.last ==> HasPort(ports, x.ip, x.typ, n))
    && !HasPort(ports, x.ip, x.typ, x.first - 1) && !HasPort(ports, x.ip, x.typ, x.last + 1)
  }

  /** No two grouped ports have the same address, type and number. */
  predicate AllDifferent(ports: seq<Port>) {
    forall i, j :: 0 <= i < j < |ports| && Grouped(ports[i]) && Grouped(ports[j]) ==>
      !(ports[i].ip == ports[j].ip && ports[i].typ == ports[j].typ && ports[i].privatePort == ports[j].privatePort)
  }

  predicate Covers(x: Item, ip: string, typ: string, n: int) {
    x.Range? && x.ip == ip && x.typ == typ && x.first <= n <= x.last
  }

  /** Mappings are for ports that did not join a group. */
  predicate TrueMapping(x: Item) {
    x.Mapping? ==> !Grouped(x.port)
  }

  lemma {:induction false} RangeSays(ip: string, typ: string, first: int, last: int, n: int)
    ensures ExpandRange(ip, typ, first, last)[One(ip, typ, n)] == if first <= n <= last then 1 else 0
    decreases last - first
  {
    if first <= last {
      RangeSays(ip, typ, first, last - 1, n);
    }
  }

  lemma {:induction false} RangeSaysOnly(ip: string, typ: string, first: int, last: int, e: Exposed)
    ensures e in ExpandRange(ip, typ, first, last) ==> e.ip == ip && e.typ == typ
    decreases last - first
  {
    if first <= last {
      RangeSaysOnly(ip, typ, first, last - 1, e);
    }
  }

  lemma ItemSays(x: Item, ip: string, typ: string, n: int)
    requires TrueMapping(x)
    ensures ExpandItem(x)[One(ip, typ, n)] == if Covers(x, ip, typ, n) then 1 else 0
  {
    match x
    case Range(xip, first, last, xtyp) =>
      RangeSaysOnly(xip, xtyp, first, last, One(ip, typ, n));
      if xip == ip && xtyp == typ { RangeSays(ip, typ, first, last, n); }
    case Mapping(p) =>
  }

  /** How often the list says e: it does if an item does, and at least twice if two do. */
  lemma {:induction false} ListSays(items: seq<Item>, e: Exposed)
    ensures Expand(items)[e] > 0 <==> exists i :: 0 <= i < |items| && ExpandItem(items[i])[e] > 0
    ensures forall i, j :: 0 <= i < j < |items| && ExpandItem(items[i])[e] > 0 && ExpandItem(items[j])[e] > 0 ==> Expand(items)[e] >= 2
    decreases |items|
  {
    hide ExpandItem;
    if items != [] {
      var front := items[..|items| - 1];
      ListSays(front, e);
      assert forall i :: 0 <= i < |front| ==> front[i] == items[i];
      if Expand(front)[e] > 0 {
        var i :| 0 <= i < |front| && ExpandItem(front[i])[e] > 0;
        assert ExpandItem(items[i])[e] > 0;
      }
    }
  }

  /** How often the ports are that. */
  lemma {:induction false} PortsSay(ports: seq<Port>, ip: string, typ: string, n: int)
    requires forall p :: p in ports && Grouped(p) ==> SlashFree(p)
    ensures Tally(Rendered, ports)[One(ip, typ, n)] > 0 <==> HasPort(ports, ip, typ, n)
    ensures AllDifferent(ports) ==> Tally(Rendered, ports)[One(ip, typ, n)] <= 1
    decreases |ports|
  {
    if ports != [] {
      var front, last := ports[..|ports| - 1], ports[|ports| - 1];
      PortsSay(front, ip, typ, n);
      PortSays(last, ip, typ, n);
      hide Rendered, SlashFree;
      LastPort(ports, ip, typ, n);
      hide Grouped, HasPort, AllDifferent;
    }
  }

  lemma LastPort(ports: seq<Port>, ip: string, typ: string, n: int)
    requires ports != []
    ensures var front, p := ports[..|ports| - 1], ports[|ports| - 1];
            var itself := Grouped(p) && p.ip == ip && p.typ == typ && p.privatePort == n;
            && (HasPort(ports, ip, typ, n) <==> itself || HasPort(front, ip, typ, n))
            && (AllDifferent(ports) ==> AllDifferent(front) && !(itself && HasPort(front, ip, typ, n)))
  {
    hide Grouped;
    var front, last := ports[..|ports| - 1], ports[|ports| - 1];
    assert forall p :: p in ports <==> p == last || p in front;
    if HasPort(front, ip, typ, n) {
      var p :| p in front && Grouped(p) && p.ip == ip && p.typ == typ && p.privatePort == n;
      var j :| 0 <= j < |front| && front[j] == p;
      assert ports[j] == p;
    }
  }

  lemma PortSays(p: Port, ip: string, typ: string, n: int)
    requires Grouped(p) ==> SlashFree(p)
    ensures Rendered(p) == One(ip, typ, n) <==> Grouped(p) && p.ip == ip && p.typ == typ && p.privatePort == n
  {
    KeyRoundTripIff(p);
  }

  /** What the printed list and the ports say is the same, and once each. */
  ghost predicate Faithful(items: seq<Item>, ports: seq<Port>) {
    && (forall x :: x in items && x.Range? ==> x.first <= x.last)
    && (forall ip, typ, n :: HasPort(ports, ip, typ, n) <==> SomeCovers(items, ip, typ, n))
    && (forall ip, typ, n :: OnceCovered(items, ip, typ, n))
  }

  ghost predicate SomeCovers(items: seq<Item>, ip: string, typ: string, n: int) {
    exists i :: 0 <= i < |items| && Covers(items[i], ip, typ, n)
  }

  ghost predicate OnceCovered(items: seq<Item>, ip: string, typ: string, n: int) {
    forall i, j :: 0 <= i < j < |items| ==> !(Covers(items[i], ip, typ, n) && Covers(items[j], ip, typ, n))
  }

  lemma ListIsFaithful(items: seq<Item>, ports: seq<Port>)
    requires Expand(items) == Tally(Rendered, ports) && AllDifferent(ports)
    requires forall p :: p in ports && Grouped(p) ==> SlashFree(p)
    requires forall i :: 0 <= i < |items| ==> ProperItem(items[i]) && TrueMapping(items[i])
    ensures Faithful(items, ports)
  {
    forall x | x in items && x.Range? ensures x.first <= x.last {
      var i :| 0 <= i < |items| && items[i] == x;
      assert ProperItem(items[i]);
    }
    hide Rendered, Grouped, SlashFree, AllDifferent, Expand, Tally, TrueMapping, ProperItem, HasPort, SomeCovers, OnceCovered;
    forall ip, typ, n ensures (HasPort(ports, ip, typ, n) <==> SomeCovers(items, ip, typ, n)) && OnceCovered(items, ip, typ, n) {
      FaithfulAt(items, ports, ip, typ, n);
    }
  }

  lemma FaithfulAt(items: seq<Item>, ports: seq<Port>, ip: string, typ: string, n: int)
    requires Expand(items) == Tally(Rendered, ports) && AllDifferent(ports)
    requires forall p :: p in ports && Grouped(p) ==> SlashFree(p)
    requires forall i :: 0 <= i < |items| ==> TrueMapping(items[i])
    ensures (HasPort(ports, ip, typ, n) <==> SomeCovers(items, ip, typ, n)) && OnceCovered(items, ip, typ, n)
  {
    hide Rendered, Grouped, SlashFree, AllDifferent, Expand, ExpandItem, Tally, TrueMapping, HasPort, Covers, One;
    PortsSay(ports, ip, typ, n);
    ListSays(items, One(ip, typ, n));
    forall i | 0 <= i < |items| ensures ExpandItem(items[i])[One(ip, typ, n)] > 0 <==> Covers(items[i], ip, typ, n) {
      ItemSays(items[i], ip, typ, n);
    }
  }

  lemma Apart(items: seq<Item>, ports: seq<Port>, i: nat, j: nat, n: int)
    requires Faithful(items, ports) && i < |items| && j < |items| && i != j && items[i].Range? && Covers(items[i], items[i].ip, items[i].typ, n)
    ensures !Covers(items[j], items[i].ip, items[i].typ, n)
  {
    assert OnceCovered(items, items[i].ip, items[i].typ, n);
  }

  /** No room for a third range of the group between two that nearly touch. */
  lemma NoRoom(items: seq<Item>, ports: seq<Port>, i: nat, m: nat, j: nat)
    requires Faithful(items, ports) && Separated(items) && i < m < j < |items| && SameGroup(items[i], items[j])
    requires items[j].first <= items[i].last + 1
    ensures !SameGroup(items[i], items[m])
  {
    hide HasPort;
    if SameGroup(items[i], items[m]) {
      var x, y, z := items[i], items[j], items[m];
      assert x in items && y in items && z in items;
      assert SameGroup(z, y) && x.last <= z.first <= z.last <= y.first;
      Apart(items, ports, i, m, x.last);
      Apart(items, ports, j, m, y.first);
    }
  }

  /** Two ranges of one group do not touch, wherever they stand. */
  lemma NoTouch(items: seq<Item>, ports: seq<Port>, i: nat, j: nat)
    requires Faithful(items, ports) && Separated(items) && i < j < |items| && SameGroup(items[i], items[j])
    ensures items[j].first > items[i].last + 1
  {
    hide HasPort;
    assert items[i] in items && items[j] in items;
    Apart(items, ports, i, j, items[i].last);
    if items[j].first <= items[i].last + 1 {
      forall m | i < m < j ensures !SameGroup(items[i], items[m]) {
        NoRoom(items, ports, i, m, j);
      }
    }
  }

  /** Neither the number after a printed range nor the one before it is a port of its group. */
  lemma NothingBeside(items: seq<Item>, ports: seq<Port>, i: nat)
    requires Faithful(items, ports) && Separated(items) && i < |items| && items[i].Range?
    ensures !HasPort(ports, items[i].ip, items[i].typ, items[i].last + 1)
    ensures !HasPort(ports, items[i].ip, items[i].typ, items[i].first - 1)
  {
    hide HasPort;
    var x := items[i];
    assert x in items;
    forall j | 0 <= j < |items|
      ensures !Covers(items[j], x.ip, x.typ, x.last + 1) && !Covers(items[j], x.ip, x.typ, x.first - 1)
    {
      if SameGroup(x, items[j]) && j != i {
        assert items[j] in items;
        if i < j { NoTouch(items, ports, i, j); } else { NoTouch(items, ports, j, i); }
      }
    }
    assert !SomeCovers(items, x.ip, x.typ, x.last + 1) && !SomeCovers(items, x.ip, x.typ, x.first - 1);
  }

  /** So of different ports without slashes exactly the maximal stretches of consecutive numbers are
      printed as ranges, each once. */
  lemma RangesAreStretches(items: seq<Item>, ports: seq<Port>)
    requires Faithful(items, ports) && Separated(items)
    ensures forall x: Item :: x.Range? ==> (x in items <==> Stretch(ports, x))
    ensures forall i, j :: 0 <= i < j < |items| && items[i].Range? ==> items[i] != items[j]
  {
    hide HasPort;
    forall i | 0 <= i < |items| && items[i].Range? ensures Stretch(ports, items[i]) {
      NothingBeside(items, ports, i);
      assert items[i] in items;
      forall n | items[i].first <= n <= items[i].last ensures HasPort(ports, items[i].ip, items[i].typ, n) {
        assert Covers(items[i], items[i].ip, items[i].typ, n);
        assert SomeCovers(items, items[i].ip, items[i].typ, n);
      }
    }
    forall x: Item | x.Range? && Stretch(ports, x) ensures x in items {
      assert HasPort(ports, x.ip, x.typ, x.first) && SomeCovers(items, x.ip, x.typ, x.first);
      var i :| 0 <= i < |items| && Covers(items[i], x.ip, x.typ, x.first);
      assert Stretch(ports, items[i]);
      SameStretch(ports, x, items[i]);
    }
    forall i, j | 0 <= i < j < |items| && items[i].Range? ensures items[i] != items[j] {
      assert items[i] in items;
      Apart(items, ports, i, j, items[i].first);
    }
  }

  lemma SameStretch(ports: seq<Port>, x: Item, y: Item)
    requires x.Range? && y.Range? && Stretch(ports, x) && Stretch(ports, y) && Covers(y, x.ip, x.typ, x.first)
    ensures x == y
  {
    hide HasPort;
    assert !HasPort(ports, x.ip, x.typ, x.first - 1) && !HasPort(ports, x.ip, x.typ, x.last + 1);
    assert !HasPort(ports, x.ip, x.typ, y.last + 1);
    assert forall n :: y.first <= n <= y.last ==> HasPort(ports, x.ip, x.typ, n);
  }

  /** DisplayablePorts. For every list of ports the printed ranges and mappings, expanded, are exactly
      the ports as their keys read back; and that is the list itself exactly when no grouped port has
      a slash in its address or type. Every range runs upwards. Without slashes, ranges of one address and type rise
      and do not touch; if the grouped ports also differ, the ranges are exactly their maximal stretches of
      consecutive numbers, each once. The order is that of `Printed`. */
  method DisplayablePorts(ports: seq<Port>) returns (items: seq<Item>)
    ensures Expand(items) == Tally(Rendered, ports)
    ensures Expand(items) == Tally(Shown, ports) <==> forall p :: p in ports && Grouped(p) ==> SlashFree(p)
    ensures forall i :: 0 <= i < |items| ==> ProperItem(items[i])
    ensures exists sorted :: Sorted(sorted) && multiset(sorted) == multiset(ports) && items == Printed(sorted)
    ensures (forall p :: p in ports && Grouped(p) ==> SlashFree(p)) ==> Separated(items)
    ensures (forall p :: p in ports && Grouped(p) ==> SlashFree(p)) && AllDifferent(ports) ==>
              && (forall x: Item :: x.Range? ==> (x in items <==> Stretch(ports, x)))
              && (forall i, j :: 0 <= i < j < |items| && items[i].Range? ==> items[i] != items[j])
  {
    hide Less, Printed, Separated, Stretch, AllDifferent, Expand, Tally, Rendered, Grouped, SlashFree, ProperItem, TrueMapping, Faithful;
    var sorted := SortPorts(ports);
    items := GroupPorts(sorted);
    TallyOfPermutation(Rendered, sorted, ports);
    RenderedFaithfulIff(ports);
    SamePorts(sorted, ports);
    MappingsAreTrue(sorted);
    if (forall p :: p in ports && Grouped(p) ==> SlashFree(p)) && AllDifferent(ports) {
      ListIsFaithful(items, ports);
      RangesAreStretches(items, ports);
    }
  }

  lemma SamePorts(a: seq<Port>, b: seq<Port>)
    requires multiset(a) == multiset(b)
    ensures forall p :: p in a <==> p in b
  {
    forall p ensures p in a <==> p in b {
      assert p in a <==> p in multiset(a);
      assert p in b <==> p in multiset(b);
    }
  }

  lemma MappingsAreTrue(ports: seq<Port>)
    ensures forall x :: x in Printed(ports) ==> TrueMapping(x)
  {
    ClosedAreRanges(ports, |ports|);
    LastAreRanges(ports, KeysInOrder(ports, |ports|));
    HostsAreTrue(ports, |ports|);
  }

  lemma {:induction false} ClosedAreRanges(ports: seq<Port>, n: nat)
    requires n <= |ports|
    ensures forall x :: x in ClosedRanges(ports, n) ==> x.Range?
    decreases n
  {
    hide Key, Grouped;
    if n > 0 { ClosedAreRanges(ports, n - 1); }
  }

  lemma {:induction false} LastAreRanges(ports: seq<Port>, keys: seq<string>)
    ensures forall x :: x in LastRanges(ports, keys) ==> x.Range?
    decreases |keys|
  {
    hide Key, Grouped;
    if keys != [] { LastAreRanges(ports, keys[..|keys| - 1]); }
  }

  lemma {:induction false} HostsAreTrue(ports: seq<Port>, n: nat)
    requires n <= |ports|
    ensures forall x :: x in HostItems(ports, n) ==> TrueMapping(x)
    decreases n
  {
    if n > 0 { HostsAreTrue(ports, n - 1); }
  }

  /** The grouping loop over the sorted ports. */
  method GroupPorts(ports: seq<Port>) returns (items: seq<Item>)
    requires Sorted(ports)
    ensures Expand(items) == Tally(Rendered, ports)
    ensures forall i :: 0 <= i < |items| ==> ProperItem(items[i])
    ensures items == Printed(ports)
    ensures (forall p :: p in ports && Grouped(p) ==> SlashFree(p)) ==> Separated(items)
  {
    var groups: map<string, Group> := map[];
    var result: seq<Item>, hosts: seq<Item>, keys: seq<string> := [], [], [];
    ghost var tags: seq<string> := [];
    hide Expand, ExpandItem, OpenItems, FormGroup, Tally, Rendered, Total, Less, Printed, Separated, Gapped, LoopAt, TakenIn, CleanKey;
    NothingYet();
    LoopBegins(ports);
    for i := 0 to |ports|
      invariant Tidy(keys, groups, Bound(ports, i))
      invariant Total(result, keys, groups, hosts) == Tally(Rendered, ports[..i])
      invariant forall j :: 0 <= j < |result| ==> ProperItem(result[j])
      invariant forall j :: 0 <= j < |hosts| ==> hosts[j].Mapping?
      invariant LoopAt(ports, i, result, keys, groups, hosts) && Gapped(result, tags, groups)
    {
      hide Sorted, Bound, Key;
      var p := ports[i];
      BoundGrows(ports, i);
      assert ports[..i + 1] == ports[..i] + [p];
      TallyAppend(Rendered, ports[..i], p);
      RenderedBy(p);
      if p.ip != "" && p.publicPort != p.privatePort {
        AddMapping(result, keys, groups, hosts, p);
        TidyWeaken(keys, groups, Bound(ports, i), p.privatePort);
        LoopMaps(ports, i, result, keys, groups, hosts);
        hosts := hosts + [Mapping(p)];
        continue;
      }
      ghost var result0, keys0, groups0 := result, keys, groups;
      result, keys, groups := TakeIn(result, keys, groups, hosts, Bound(ports, i), p);
      LoopTakesIn(ports, i, result0, keys0, groups0, hosts, result, keys, groups);
      tags := GappedTakesIn(result0, tags, keys0, groups0, Bound(ports, i), p, result, keys, groups);
    }
    assert ports[..|ports|] == ports;
    var closed := CloseAll(keys, groups);
    items := result + closed + hosts;
    AllPrinted(result, keys, groups, hosts);
    LoopEnds(ports, result, tags, keys, groups, hosts);
  }

  lemma TagsAreKeys(result: seq<Item>, tags: seq<string>, groups: map<string, Group>)
    requires Gapped(result, tags, groups)
    ensures forall k :: k in tags ==> k in groups
  {
    hide Follows, NoneBetween;
  }

  lemma LoopBegins(ports: seq<Port>)
    ensures LoopAt(ports, 0, [], [], map[], []) && Gapped([], [], map[])
  {
  }

  lemma LoopEnds(ports: seq<Port>, result: seq<Item>, tags: seq<string>, keys: seq<string>, groups: map<string, Group>, hosts: seq<Item>)
    requires LoopAt(ports, |ports|, result, keys, groups, hosts) && Gapped(result, tags, groups)
    requires Distinct(keys) && (forall k :: k in keys <==> k in groups) && forall h :: h in hosts ==> h.Mapping?
    ensures result + OpenItems(keys, groups) + hosts == Printed(ports)
    ensures (forall p :: p in ports && Grouped(p) ==> SlashFree(p)) ==> Separated(result + OpenItems(keys, groups) + hosts)
  {
    hide Gapped, Separated, Distinct, ClosedRanges, KeysInOrder, HostItems;
    LastRangesAreOpen(ports, keys, groups);
    if forall p :: p in ports && Grouped(p) ==> SlashFree(p) {
      forall k | k in groups ensures CleanKey(k) {
        assert LastWith(ports, |ports|, k).Some?;
        var p := ports[LastWith(ports, |ports|, k).value];
        KeyRoundTripIff(p);
      }
      AllTagged(result, tags, keys, groups);
      AllFollow(result, tags, keys, groups);
      TagsAreKeys(result, tags, groups);
      FollowingIsSeparated(result + OpenItems(keys, groups), tags + keys, hosts);
    }
  }

  lemma NothingYet()
    ensures Total([], [], map[], []) == Tally(Rendered, [])
  {
  }

  lemma AllPrinted(result: seq<Item>, keys: seq<string>, groups: map<string, Group>, hosts: seq<Item>)
    requires forall k :: k in keys ==> k in groups
    ensures Expand(result + OpenItems(keys, groups) + hosts) == Total(result, keys, groups, hosts)
  {
    ExpandConcat(result + OpenItems(keys, groups), hosts);
    ExpandConcat(result, OpenItems(keys, groups));
  }

  lemma RenderedBy(p: Port)
    ensures Rendered(p) == if p.ip != "" && p.publicPort != p.privatePort then Shown(p)
                           else One(KeyIP(Key(p)), KeyType(Key(p)), p.privatePort)
  {
  }

  /** One grouped port: open its group, extend it, or close it and open it again. */
  method TakeIn(result: seq<Item>, keys: seq<string>, groups: map<string, Group>, ghost hosts: seq<Item>, ghost bound: int, p: Port)
    returns (result': seq<Item>, keys': seq<string>, groups': map<string, Group>)
    requires Tidy(keys, groups, bound) && bound <= p.privatePort
    requires forall j :: 0 <= j < |result| ==> ProperItem(result[j])
    ensures Tidy(keys', groups', p.privatePort)
    ensures Total(result', keys', groups', hosts)
            == Total(result, keys, groups, hosts) + multiset{One(KeyIP(Key(p)), KeyType(Key(p)), p.privatePort)}
    ensures forall j :: 0 <= j < |result'| ==> ProperItem(result'[j])
    ensures TakenIn(result, keys, groups, p, result', keys', groups')
  {
    hide Total, Inc16, KeyIP, KeyType, One;
    result', keys', groups' := result, keys, groups;
    var current := p.privatePort;
    var key := p.typ;
    if p.ip != "" {
      key := p.ip + "/" + p.typ;
    }
    assert key == Key(p);
    if key !in groups {
      OpenGroup(result, keys, groups, hosts, bound, key, current);
      groups', keys' := groups[key := Group(current, current)], keys + [key];
      return;
    }
    NoWrap(groups[key].last, current);
    if current == Inc16(groups[key].last) {
      ExtendGroup(result, keys, groups, hosts, bound, key, current);
      groups' := groups[key := groups[key].(last := current)];
      return;
    }
    CloseGroup(result, keys, groups, hosts, bound, key, current);
    result' := result + [FormGroup(key, groups[key].first, groups[key].last)];
    groups' := groups[key := Group(current, current)];
  }

  /** The final loop over the keys in creation order. */
  method CloseAll(keys: seq<string>, groups: map<string, Group>) returns (items: seq<Item>)
    requires forall k :: k in keys ==> k in groups && groups[k].first <= groups[k].last
    ensures items == OpenItems(keys, groups)
    ensures forall i :: 0 <= i < |items| ==> ProperItem(items[i])
  {
    items := [];
    for i := 0 to |keys|
      invariant items == OpenItems(keys[..i], groups)
      invariant forall j :: 0 <= j < |items| ==> ProperItem(items[j])
    {
      assert keys[..i + 1][..i] == keys[..i];
      items := items + [FormGroup(keys[i], groups[keys[i]].first, groups[keys[i]].last)];
    }
    assert keys[..|keys|] == keys;
  }

  // ---------------------------------------------------------------- when nothing is lost

  lemma RenderedIff(p: Port)
    ensures Rendered(p) == Shown(p) <==> (Grouped(p) ==> SlashFree(p))
    ensures Grouped(p) ==> '/' !in Rendered(p).ip && '/' !in Rendered(p).typ
  {
    KeyRoundTripIff(p);
  }

  lemma SlashIsNotRendered(p: Port, e: Exposed)
    requires '/' in e.ip || '/' in e.typ
    ensures Rendered(p) == e ==> Shown(p) == e && !Grouped(p)
  {
    RenderedIff(p);
  }

  /** For what has a slash, the tally of rendered ports never exceeds the true one, and falls short
      once such a port is grouped. */
  lemma {:induction false} SlashesAreLost(ports: seq<Port>, e: Exposed)
    requires '/' in e.ip || '/' in e.typ
    ensures Tally(Rendered, ports)[e] <= Tally(Shown, ports)[e]
    ensures (exists p :: p in ports && Grouped(p) && Shown(p) == e) ==> Tally(Rendered, ports)[e] < Tally(Shown, ports)[e]
    decreases |ports|
  {
    if ports != [] {
      var front, last := ports[..|ports| - 1], ports[|ports| - 1];
      SlashesAreLost(front, e);
      SlashIsNotRendered(last, e);
      hide Rendered, Shown, Grouped;
      assert Tally(Rendered, ports)[e] == Tally(Rendered, front)[e] + if Rendered(last) == e then 1 else 0;
      assert Tally(Shown, ports)[e] == Tally(Shown, front)[e] + if Shown(last) == e then 1 else 0;
      hide Tally;
      if p :| p in ports && Grouped(p) && Shown(p) == e {
        assert p == last || p in front;
      }
    }
  }

  lemma {:induction false} RenderedAllSame(ports: seq<Port>)
    requires forall p :: p in ports && Grouped(p) ==> SlashFree(p)
    ensures Tally(Rendered, ports) == Tally(Shown, ports)
    decreases |ports|
  {
    if ports != [] {
      RenderedAllSame(ports[..|ports| - 1]);
      RenderedIff(ports[|ports| - 1]);
    }
  }

  lemma RenderedFaithfulIff(ports: seq<Port>)
    ensures Tally(Rendered, ports) == Tally(Shown, ports) <==> forall p :: p in ports && Grouped(p) ==> SlashFree(p)
  {
    if p :| p in ports && Grouped(p) && !SlashFree(p) {
      SlashesAreLost(ports, Shown(p));
    } else {
      RenderedAllSame(ports);
    }
  }
}
