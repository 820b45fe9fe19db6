# ipyroute text-to-record layer in Dafny

ipyroute wraps the Linux `ip` tool (iproute2). Each record kind has three parts:

- a regular expression that reads one line of `ip ... show` output;
- a cast table that turns captured text into integers, IP networks, IP addresses and MAC addresses;
- a few derived attributes.

The base class turns lines into records, flattens query arguments and filters the records a query returns. The mutating commands pass keyword arguments in a fixed order and clear a class-level cache.

This project models that layer. It covers the kinds Link (with EtherLink and GRELink), Address, Neighbor, Route (with Nexthop, Route4 and Route6) and Rule (with Rule4 and Rule6), and proves what the code promises about them.

Modules:

- `Regex` (regex.dfy) is a backtracking matcher over a pattern syntax tree. It has literals, greedy and lazy repetitions of a character class, optional groups, alternation and back-references. `Match` returns the first successful path in Python's search order, anchored at a position. `FindAll` is `finditer`. Each kind's regular expression is written as a pattern in this syntax, item by item.
- `Values` (values.dfy) holds attribute values, records and the converters. It also models `Base.__init__`, as a loop proved equal to a specification function.
- `Base` (base.dfy) covers `from_string`, `_unwind` and `get`, the `shwrap` command data, and the class cache.
- `Link`, `Address`, `Neighbor`, `Route` and `Rule` each cover one kind.
  Their mutating commands are `Base.Command` values: a path under `ip` and the order in which keyword arguments are passed. Most are built by methods with a contract; the two Address commands are plain constants, `Address.AddressAdd` (`addr add` with peer, dev, scope, to, label) and `Address.AddressDelete` (`addr del` with peer, dev, label), taken from ipyroute/address.py:48 and :55.
- `Common` and `Dicts` hold Python's string and dictionary operations as the source uses them: `upper`, `in`, `split`, `int()`, `str()`, and insertion-ordered dicts.

The netaddr parsers `IPNetwork`, `IPAddress` and `EUI` are a parameter, `NetLib`. It has three partial functions on text and two on integers (`IPAddress(n)` and `EUI(n)`), each giving the canonical text of the parsed value. The `ip` tool is a parameter too: a function from the argument list to the lines it prints.

## Model

| member | source | states |
|---|---|---|
| Values.Init | ipyroute/base.py:62-69 | The cast loop of `__init__` computes `Construct`: each keyword in turn is converted when it is not None and its key is in the cast table, and stored; the first converter that raises aborts. |
| Values.Converted | ipyroute/base.py:67-68 | None and keys outside the cast table keep their value; any other value is passed to the table's converter. |
| Values.CastValue | ipyroute/base.py:68 | On text, `int` succeeds exactly on a non-empty run of ASCII digits and gives its value (narrower than Python's `int()`, see Left out), and each netaddr cast succeeds as the library parses; a failing converter raises a cast error naming the key and the text. The identity cast keeps every value. `int` keeps an int and turns a bool into 0 or 1; `IPAddress` and `EUI` read an int as the library does; each netaddr cast copies a value of its own type, and `IPNetwork` reads an IPAddress as its host network. None, lists and an int given to `IPNetwork` raise TypeError. |
| Values.CastIdempotent | ipyroute/base.py:66-69 | Every converter hands back unchanged a value it produced, so already-cast values can be passed to a constructor again. |
| Values.Reconstruct | ipyroute/base.py:66-69 | `cls(**rec.__dict__)` on a record built from distinct keyword arguments builds the same record. |
| Values.NetCasts | ipyroute/base.py:6-11 | The netaddr converters succeed exactly when the library parses the text, and give its canonical form. |
| Values.ConstructOk | ipyroute/base.py:66-69 | `Construct`, the cast loop of `__init__` as a function, succeeds if and only if every keyword argument converts. |
| Values.ConstructFields | ipyroute/base.py:66-69 | Every key passed becomes an attribute, in order, holding its converted value; nothing is dropped or renamed. |
| Values.ConstructLookup | ipyroute/base.py:66-69 | A key that was passed reads as its converted value; a key that was not passed is absent. |
| Values.ConstructFirstError | ipyroute/base.py:66-68 | The first argument that fails to convert decides the exception. |
| Values.Render | ipyroute/route.py:69 | `str()` of text is the text, of a network, address or MAC its canonical text; a non-negative int reads back with `int()`. |
| Base.GroupArgs | ipyroute/base.py:87 | `groupdict()` has every group of the pattern, in order, with its text, or None when the group took no part. |
| Base.FromString | ipyroute/base.py:78-89 | The no-match ValueError is raised if and only if the pattern does not match at the start of the line; a built record has the kind's class. |
| Base.FromStringFields | ipyroute/base.py:83-89 | A matching line builds the record from exactly the pattern's groups in group order. It fails if and only if some group's conversion fails. |
| Base.FromStringLookup | ipyroute/base.py:87-89 | On a parsed record, a group holds its converted capture (None when the group took no part), and a name that is no group is absent. |
| Base.FieldValue | ipyroute/base.py:66-69 | A parsed group holds a value of its converter's kind, or text when uncast; a group outside every optional part is never None. |
| Base.DigitCastsParse | ipyroute/base.py:83-89 | A kind whose only casts are `int` on digit-only groups parses every line its pattern matches. |
| Base.MatchedFailure | ipyroute/base.py:83-89 | A matching line fails only in a cast of a group the table names, and never in an `int` cast of a digit-only group. |
| Base.ConstructNotNoMatch | ipyroute/base.py:66-69 | Construction raises cast errors only, never the no-match error. |
| Base.Unwind | ipyroute/base.py:98-104 | `_unwind` gives the positional arguments in order, then name and value for each keyword. Its length is the number of positional arguments plus twice the number of keywords. |
| Base.ToolArgsWithoutFilter | ipyroute/base.py:109-110 | `Get` pops `filt` before `_unwind`: the tool never receives it, and gets two arguments for every other keyword. |
| Base.ToolArgsAreStrings | ipyroute/base.py:109-111 | When the caller passes strings, the tool receives only strings. |
| Base.GetWithoutArguments | ipyroute/base.py:111 | With nothing but a filter, the tool is called with no arguments. |
| Base.Keep | ipyroute/base.py:109-113 | The default filter keeps every record; a callable filter decides; a string filter raises TypeError. |
| Base.ParseAll | ipyroute/base.py:112 | Every line parsed in order; this succeeds if and only if every line parses. |
| Base.Kept | ipyroute/base.py:113 | The records that pass the filter, in order, and no others. |
| Base.CollectSelects | ipyroute/base.py:109-113 | `Collect`, the body of `get` after the tool call (and so `Get`): when every line parses, it returns exactly the parsed records that pass the filter, in the tool's line order, and all of them without a filter. |
| Base.CollectFails | ipyroute/base.py:112 | One line that does not parse makes the whole query raise. |
| Base.CollectAppend | ipyroute/base.py:112-113 | Querying two batches of lines in sequence is chaining the two queries: the first exception wins, otherwise the results are concatenated. |
| Base.Cache.Clear | ipyroute/route.py:39 | Clearing empties the class cache. |
| Common.Upper | ipyroute/link.py:43 | `str.upper` on ASCII: each letter a-z is upper-cased and every other character kept, character by character, so the length is kept (Python 3 is wider, see Left out). |
| Common.ContainsIffOccurs | ipyroute/link.py:44 | The left-to-right substring search holds if and only if the word occurs at some index of the text. |
| Common.JoinSplit | ipyroute/address.py:29 | Joining the pieces of `split` gives back the string. |
| Common.SplitPartsFree | ipyroute/address.py:29 | No piece of `split` contains the separator. |
| Common.SplitInTwo | ipyroute/address.py:29 | `split` gives exactly two pieces if and only if the separator is found and does not occur again from the end of that first occurrence on. The pieces are then the text before it and the text after it; when the second is empty, the string is the first piece followed by the separator. |
| Common.ParseIntToString | ipyroute/route.py:69 | `int(str(n)) == n` for every non-negative n. |
| Regex.MatchShape | ipyroute/base.py:83 | `Match`, the anchored `re.match`: a match ends inside the line, keeps every group bound before, and binds only the pattern's own groups, inside the text it consumed. |
| Regex.MatchBindsRequired | ipyroute/base.py:83-87 | Every group outside optional parts takes part in a successful match. |
| Regex.MatchFits | ipyroute/base.py:83-87 | A group captured by a repetition of a class captures only characters of that class. |
| Regex.OptionalMatches | ipyroute/route.py:17-24 | A pattern made only of optional parts matches everywhere. |
| Regex.FindAll | ipyroute/route.py:74 | `finditer` reports matches left to right, non-overlapping, each a real match at its start. |
| Regex.FindAllComplete | ipyroute/route.py:74 | `finditer` misses nothing: every position where the pattern matches starts a reported match or lies inside one. |
| Link.LinkPatternGroups | ipyroute/link.py:11-22 | The pattern has the thirteen groups in Python's order, each named once, so all three link kinds compile. |
| Link.LinkPatternRequired | ipyroute/link.py:11-22 | num, name, flags, type, addr and brd take part in every match. |
| Link.LinkFromString | ipyroute/link.py:11-24 | Parsing a link raises if and only if the pattern does not match: num and mtu are cast from digit runs and cannot fail. |
| Link.LinkNeedsDigit | ipyroute/link.py:11 | A line that does not start with a digit raises the no-match error. |
| Link.LinkEmptyLineAborts | ipyroute/base.py:112 | A query whose output holds an empty line raises. |
| Link.LinkNumbers | ipyroute/link.py:11-24 | A parsed link's attributes are the thirteen groups. num is a non-negative int, and mtu is one too or None. |
| Link.LinkTexts | ipyroute/link.py:11-24 | The uncast groups hold their text; only the optional ones can be None. |
| Link.SubtypeCasts | ipyroute/link.py:87-91 | EtherLink and GRELink keep Link's casts and add EUI, respectively IPAddress, for addr and brd. |
| Link.LinkAttr | ipyroute/link.py:39-45 | A stored attribute comes first. Otherwise `group` is None, and a name whose upper-case form is a valid flag is true exactly when that word occurs in the flags text. Any other name raises AttributeError. |
| Link.LoopbackIsLoopback | ipyroute/link.py:43-44 | On any link holding the thirteen parsed attributes with flags `LOOPBACK,UP,LOWER_UP` (the loopback line of the tests), `loopback` is true. |
| Link.LoopbackIsUp | ipyroute/link.py:43-44 | On such a link, `up` is true. |
| Link.LoopbackIsLowerUp | ipyroute/link.py:43-44 | On such a link, `lower_up` is true. |
| Link.LoopbackNotBroadcast | ipyroute/link.py:43-44 | On such a link, `broadcast` is false: the word does not occur in the flags text. |
| Link.LoopbackUnknown | ipyroute/link.py:43-45 | On such a link, a name that is neither stored nor a flag (`speed`) raises AttributeError. |
| Link.ParsedLoopback | tests/ipyroute_test.py:47-58 | A link parsed from any line whose flags read `LOOPBACK,UP,LOWER_UP` has loopback, up and lower_up true, broadcast false, and raises on an unknown name. |
| Link.UnsetGroup | ipyroute/link.py:40-41 | On a link without a stored `group`, `group` reads as None. |
| Link.UpInsideLowerUp | ipyroute/link.py:44 | The test is on text: on a parsed link with flags `BROADCAST,LOWER_UP`, `up` is true. |
| Link.LinkHeaderCaptures | ipyroute/link.py:11-12 | On a line `num: a@b: ...` with no `@` in a, the lazy name group stops at the first `@`: whenever the pattern matches, name captures a and phy captures b, and the pattern names each group once. |
| Link.LinkNamePhy | ipyroute/link.py:11-24 | A link parsed from such a line holds name a and phy b as text. |
| Link.GreNamePhy | tests/ipyroute_test.py:89-96 | The gre line of the tests, when it parses, gives name `gre0` and phy `NONE`. |
| Link.LinkMtuNotNumber | ipyroute/link.py:11-24 | A link line whose flags are followed by `mtu ` and a non-digit raises the no-match error: no group absorbs the word, so the int cast is never reached. |
| Link.BogusMtuFails | tests/ipyroute_test.py:110-117 | The line with `mtu bogus` raises the no-match ValueError. |
| Link.LinkConstructKind | ipyroute/link.py:75-85 | `LinkConstruct` (with `Subtype`) builds an EtherLink exactly for type `ether`, a GRELink exactly for `gre`, and otherwise an instance of the class it was called on, `_cls = cls`. |
| Link.ConstructedAt | ipyroute/link.py:80-91 | Every attribute but group of the constructed link is the line's value converted by the cast table of the class the type picked; an absent one stays absent. |
| Link.EtherAddr | ipyroute/link.py:87-88 | On type `ether`, addr and brd are parsed by EUI and hold MAC values. |
| Link.GreAddr | ipyroute/link.py:90-91 | On type `gre`, addr and brd are parsed by IPAddress and hold addresses. |
| Link.PlainAddr | ipyroute/link.py:24 | On any other type, `Link.construct` leaves addr and brd as the line gave them. |
| Link.LinkConstructGroup | ipyroute/link.py:77-79 | `WithGroup`: `group` is taken from the argument after the first `group` in the query; a trailing `group` raises IndexError; no other attribute is added or dropped. |
| Link.GroupedDistinct | ipyroute/link.py:79 | Writing `group` into the result keeps the keys distinct. |
| Address.AddressPatternGroups | ipyroute/address.py:6-13 | The pattern has the eight groups in order, each named once. |
| Address.AddressPatternRequired | ipyroute/address.py:6-13 | The groups every match binds are exactly ifnum, ifname, addr and scope; phy, brd, peer and label are optional. |
| Address.AddressCastTable | ipyroute/address.py:15 | ifnum is int, addr and peer are IPNetwork, brd is IPAddress, and nothing else is cast. |
| Address.AddressNeedsHead | ipyroute/address.py:6-7 | Only a line that starts with digits, a colon, a blank and a name can match. |
| Address.AddressFromString | ipyroute/address.py:6-15 | Parsing raises the no-match error if and only if the pattern fails; otherwise only the addr, brd or peer cast can fail. |
| Address.AddressFields | ipyroute/address.py:6-15 | Per group, the kind of value a parsed address holds: ifnum an int, addr a network, brd an address or None, peer a network or None, label text or None. |
| Address.AddressAttr | ipyroute/address.py:26-36 | A stored attribute comes first; a failing lookup raises AttributeError. |
| Address.ScopeAttr | ipyroute/address.py:29-31 | For s in host, link and global, `<s>_scope` is true exactly when the scope is s. |
| Address.ScopeAttrUnset | ipyroute/address.py:31 | Without a stored scope, a scope attribute raises AttributeError for `scope`. |
| Address.OtherAttr | ipyroute/address.py:28-36 | Every other unstored name raises AttributeError for that name. |
| Address.UnknownScopes | ipyroute/address.py:29-36 | `site_scope` (unknown scope) and `global_scope_scope` (split into three) raise AttributeError. |
| Address.GlobalScope | ipyroute/address.py:29-31 | On a global address, `global_scope` is true. |
| Address.GlobalIsNotHost | ipyroute/address.py:29-31 | On a global address, `host_scope` is false. |
| Address.SplitScopeName | ipyroute/address.py:29 | `<s>_scope` splits into s and the empty string. |
| Address.SampleLineMatches | ipyroute/address.py:6-13 | A typical `ip -o addr` line, `2: eth0    inet 10.0.0.1/8 brd 10.255.255.255 scope global eth0` and the closing backslash, matches the pattern, so reading it never raises the no-match error. |
| Address.AddressGetOrder | ipyroute/address.py:19-24 | `AddressLines` feeds the IPv4 lines before the IPv6 lines, so a query returns every IPv4 record before every IPv6 record, each family in the tool's order. |
| Neighbor.NeighborPatternGroups | ipyroute/neighbor.py:7-10 | The pattern has the four groups in order, each named once. |
| Neighbor.NeighborPatternRequired | ipyroute/neighbor.py:7-10 | ipaddr and nud are the only groups every match binds. |
| Neighbor.NeighborMatches | ipyroute/neighbor.py:7-10 | A line matches if and only if it starts with address characters and a blank, and a non-blank follows somewhere after the blanks. |
| Neighbor.NeighborFromString | ipyroute/neighbor.py:7-12 | Parsing raises the no-match error exactly on lines of another shape; otherwise only the ipaddr or ifaddr cast can fail. |
| Neighbor.NeighborFields | ipyroute/neighbor.py:7-12 | ipaddr is an IPAddress, nud is text, ifname is text or None, ifaddr is a MAC or None. |
| Neighbor.NeighborBare | ipyroute/neighbor.py:7-10 | On a line with only an address and a state word, dev and lladdr take no part and the state is the whole word. |
| Neighbor.NeighborBareFields | ipyroute/neighbor.py:7-12 | On such a line, ifname and ifaddr are None and nud is the state word. |
| Neighbor.NeighborAttr | ipyroute/neighbor.py:26-30 | A stored attribute comes first; any failure is the AttributeError of the missing base `__getattr__`. |
| Neighbor.NudAttr | ipyroute/neighbor.py:13-29 | For a name whose upper-case form is a valid state, the attribute is true exactly when nud equals that upper-case word. |
| Neighbor.NudOther | ipyroute/neighbor.py:28-30 | Any other unstored name raises AttributeError. |
| Neighbor.NudCaseless | ipyroute/neighbor.py:28-29 | Two names with the same upper-case form read alike. |
| Neighbor.LowerStateNeverHolds | ipyroute/neighbor.py:29 | A state stored in lower case makes every state attribute false. |
| Neighbor.ReachableAttrs | ipyroute/neighbor.py:13-29 | In state REACHABLE, `reachable` is true and `stale` is false. |
| Neighbor.DelayRaises | ipyroute/neighbor.py:13-30 | `delay` is not one of the four states and raises AttributeError. |
| Neighbor.NeighborGetOrder | ipyroute/neighbor.py:16-24 | `NeighborLines` feeds the IPv4 lines before the IPv6 lines, so a query returns the IPv4 neighbours before the IPv6 ones, each in the tool's order. |
| Neighbor.NeighborFamilyFails | ipyroute/neighbor.py:19-24 | A family whose command fails contributes nothing, and the other family's records are still returned. |
| Neighbor.Add | ipyroute/neighbor.py:38-42 | Clears the cache and gives `add` with the neighbour order. |
| Neighbor.Replace | ipyroute/neighbor.py:44-48 | Clears the cache and gives `replace` with the neighbour order. |
| Neighbor.Change | ipyroute/neighbor.py:50-54 | Clears the cache and gives `change` with the neighbour order. |
| Neighbor.Delete | ipyroute/neighbor.py:56-61 | Clears the cache and gives `del` with the neighbour order. |
| Route.NexthopPatternGroups | ipyroute/route.py:8-13 | The nexthop pattern binds via, dev and weight in every match; weight is digits. |
| Route.NexthopFields | ipyroute/route.py:8-13 | A nexthop match builds a record exactly when via is an IP address: via that address, dev its text, weight the int of its digits. |
| Route.NexthopRecords | ipyroute/route.py:75 | One Nexthop per match, in match order; it succeeds if and only if every match builds. |
| Route.NexthopsInOrder | ipyroute/route.py:74-75 | `Nexthops`: the route's nexthops are its non-overlapping nexthop matches, left to right, none skipped, one Nexthop record per match. |
| Route.RoutePatternGroups | ipyroute/route.py:17-24 | The route pattern has its eight groups in fixed order. |
| Route.RouteOptionsOptional | ipyroute/route.py:18-24 | Every group after the network is optional. |
| Route.RouteMatches | ipyroute/route.py:17-24 | A line matches if and only if it starts with a non-blank token followed by a blank. |
| Route.RouteFromString | ipyroute/route.py:17-30 | The no-match error is raised exactly on lines without that head; otherwise only the network or src cast can fail. |
| Route.RouteFields | ipyroute/route.py:17-30 | The network is an IPNetwork and src an IPAddress or None; metric, mtu and advmss are ints or None; via, dev and proto are text or None. |
| Route.RouteCastTable | ipyroute/route.py:26-30 | Exactly network, src, metric, mtu and advmss are cast, to the stated converters. |
| Route.RouteArgsFields | ipyroute/route.py:72-92 | `RouteArgs` adds the nexthops and rewrites a `default` network to the class's zero prefix; everything else is untouched. Only the plain Route class fails, having no zero prefix. |
| Route.RouteBuildFields | ipyroute/route.py:73-78 | `RouteConstruct` is `Nexthops` then `RouteBuild`. The constructed route has its class's kind and holds the nexthops. Its network is the converted zero prefix for `default`, and the converted parsed network otherwise. |
| Route.ConvertNexthops | ipyroute/route.py:61-70 | The append loop computes `NexthopArgs`. |
| Route.NexthopArgsOk | ipyroute/route.py:62-70 | `NexthopArgs`, the token list of `_convert_nexthops`, is built if and only if every nexthop has via, dev and weight. |
| Route.NexthopArgsAreBlocks | ipyroute/route.py:62-70 | A built list is the nexthops' seven-token blocks `nexthop via v dev d weight w`, in order. |
| Route.NexthopArgsError | ipyroute/route.py:69 | A list that cannot be built fails on a missing via, dev or weight. |
| Route.BlocksLength | ipyroute/route.py:62-70 | The list has seven tokens per nexthop. |
| Route.BlocksAt | ipyroute/route.py:62-70 | Token 7i+m is token m of nexthop i's block. |
| Route.NexthopArgsOfLine | ipyroute/route.py:62-75 | The tokens built from a line's nexthops number seven per match. |
| Route.TokensAt | ipyroute/route.py:62-75 | Block i carries match i's canonical via address, its dev text, and a weight that reads back as the captured weight. |
| Route.RouteKwargsRewrite | ipyroute/route.py:44-58 | `RouteKwargs`: without nexthops the arguments pass unchanged. With them, `nexthops` is removed and the empty key holds `ConvertValue` of the value; every other keyword is unchanged. |
| Route.ConvertValue | ipyroute/route.py:62-70 | `_convert_nexthops` on whatever value it is given: a list of records gives `NexthopArgs`; an empty string or list gives no tokens; a non-empty string or list of strings, an IPNetwork (which iterates its addresses) and an EUI (which iterates its words) raise AttributeError for `via`; None, an int, a bool and an IPAddress cannot be iterated and raise TypeError. |
| Route.RewriteKwargs | ipyroute/route.py:47-48 | The in-place rewriting computes `RouteKwargs`. |
| Route.Add | ipyroute/route.py:43-50 | Clears the cache and calls `add` on the network and the rewritten keywords, in order `('table','src','')`. |
| Route.Replace | ipyroute/route.py:52-59 | The same with `replace`. |
| Route.Flush | ipyroute/route.py:37-40 | Clears the cache and gives `flush` with order `('table','label')`. |
| Route.HashOfParsedRouteRaises | ipyroute/route.py:80-82 | `HashAsWritten`: hashing any parsed route raises TypeError, since its network is an IPNetwork and not an int. |
| Route.HashByNetwork | ipyroute/route.py:80-82 | The corrected `Hash` succeeds on every parsed route, and routes with equal networks hash alike. |
| Rule.RulePatternGroups | ipyroute/rule.py:6-10 | The rule pattern has its five groups in fixed order. |
| Rule.RuleOptionsOptional | ipyroute/rule.py:7-10 | from, to, fwmark and lookup are optional. |
| Rule.RuleMatches | ipyroute/rule.py:6-10 | A line matches if and only if it starts with digits, a colon and a blank. |
| Rule.RuleFromString | ipyroute/rule.py:6-12 | For the prefixes as written (`\w+`) and corrected alike: the no-match error is raised exactly on lines without that head; otherwise only the prefix casts can fail. |
| Rule.RuleFields | ipyroute/rule.py:6-12 | For the prefixes as written and corrected alike: pref is an int; the prefixes are networks or None; fwmark and lookup are text or None. |
| Rule.RuleCastTable | ipyroute/rule.py:12 | pref is int and both prefixes are IPNetwork; fwmark and lookup are uncast. |
| Rule.RuleAsWrittenLosesSource | ipyroute/rule.py:7 | With `\w+` prefixes, a line `N: from 10.0.0.0/8 ...` matches but does not capture its source prefix. |
| Rule.RuleAsWrittenParsed | ipyroute/rule.py:6-12 | As written, a line `N: from tok ...` whose tok holds a non-word character parses without error, with fromprefix, toprefix, fwmark and lookup all None. |
| Rule.AsWrittenLosesLookup | ipyroute/rule.py:7-10 | As written, `0:<tab>from 10.0.0.0/8 lookup main` parses with fromprefix and lookup None. |
| Rule.WordCaptures | ipyroute/rule.py:7 | With `\w+` prefixes, a captured source prefix holds only word characters. |
| Rule.RuleCapturesSource | ipyroute/rule.py:6-10 | With the corrected `\S+` prefixes, `N: from tok ...` captures exactly tok. |
| Rule.RuleSourceParsed | ipyroute/rule.py:6-12 | With the corrected `\S+` prefixes, a parsed rule from such a line holds tok's network, and the line fails to parse when tok is no network. |
| Rule.RuleArgsFields | ipyroute/rule.py:32-37 | `RuleArgs` replaces a fromprefix of `all` by the class's zero prefix and leaves every other key alone. Only the plain Rule class fails. |
| Rule.RuleConstructFields | ipyroute/rule.py:33-37 | `RuleConstruct`: the constructed rule has the class's kind. Its fromprefix is the converted zero prefix for `all`, and the converted parsed prefix otherwise. |
| Rule.RuleAddArgs | ipyroute/rule.py:20-24 | `RuleAdd`: `from` is the zero prefix for `any` and `str(fromprefix)` otherwise; other keywords are unchanged; the command is `add` in the rule order. |
| Rule.DeletePairSource | ipyroute/rule.py:28-29 | Every pair `delete` passes comes from a non-None attribute, renamed and stringified. |
| Rule.DeletePairsLookup | ipyroute/rule.py:28-29 | `DeletePairs`: an attribute reaches `delete` under its new name as text, or not at all when it is None. |
| Rule.DeletePairsDistinct | ipyroute/rule.py:28-29 | Distinct new names give distinct keyword names. |
| Rule.DictOfFresh | ipyroute/rule.py:28 | `dict()` of pairs with distinct names keeps them all, in order. |
| Rule.RuleArgNames | ipyroute/rule.py:28 | Removing `prefix` turns fromprefix into from and toprefix into to, and keeps the other group names. |
| Rule.RuleDeleteParsed | ipyroute/rule.py:26-30 | `RuleDelete` on a rule parsed with the prefixes as written or corrected: `del` in the rule order. Each group is passed as text under its new name, and left out when None. |
| Rule.ParsedRenames | ipyroute/rule.py:6-29 | For the prefixes as written and corrected alike, a parsed rule's attributes are the five groups, renamed apart. |

## Left out

- The lazy binding of the `ip` tool through the `sh` package, the `IPR` object and `classproperty` are process plumbing (ipyroute/base.py:13-51). Every `cmd` property and every `_get` body that runs the tool is left out too. The tool is a function parameter, and a command is its attribute path plus its keyword order.
- `shwrap` and the cache are not defined in the modelled files. A command is data: an attribute path and a keyword order, plus the arguments for `Invocation`. The cache is a class whose only operation is being cleared.
- netaddr is a foreign library. Its parsers are partial functions handed in as `NetLib`, so no property of IP or MAC syntax is assumed.
- `Regex` models only the regular-expression features these patterns use: literals, `\d \s \S \w`, `[0-9a-f.:]`, `+ * ? +?`, optional groups, alternation, and one back-reference. The classes are ASCII: Python 3 `re` on text also lets `\d`, `\s` and `\w` match non-ASCII digits, blanks and letters.
- Python 2 dictionaries are unordered. The model fixes keyword order to insertion order, so `_unwind` and `get` are deterministic here.
- `from_string` calls `recurse`, the identity, and not `construct`. The `construct` hooks of Link, Route and Rule are therefore modelled as standalone functions.
- Link `construct`, Route `construct`/`add`/`replace` and Rule `construct`/`add` mutate their argument dictionaries in place. They are modelled as functions from the old dictionary to the new one; Route's rewriting also exists as the method `Route.RewriteKwargs`. The aliasing of the caller's dictionary is not captured.
- Link `add`, `delete` and `set` (ipyroute/link.py:53-72) build commands from the instance's name through `getattr` on the tool object. That is attribute plumbing on an object not modelled here.
- Link's `ErrorReturnCode` and Neighbor's bare `except` are the tool's failures. For Neighbor, a failing family contributes no lines (`Neighbor.NeighborFamilyFails`). Lines a family printed before failing are not modelled.
- `str()` of a list is a fixed placeholder: Python prints object addresses there.
- The Python 2 `unicode` cast of a nexthop's dev (ipyroute/route.py:12) is the identity, as on Python 3.
- Common.Upper: ASCII only. Python 3's `str.upper` upper-cases every Unicode letter and can lengthen a string (`'ß'` becomes `'SS'`). The model upper-cases a-z and keeps every other character, so it always keeps the length.
- Values.CastValue: `int()` is narrowed to a non-empty run of ASCII digits. Python's `int()` also strips surrounding whitespace and accepts a leading sign, single underscores between digits and non-ASCII digits. A direct construction such as `Link(mtu=' 1500')` converts in Python and fails here. Lines read through the patterns hand `int` only `\d+` captures, where the two agree on ASCII text.
- Values.CastValue: the model's netaddr values carry only their canonical text, not their integer value. So `int()` of an IPNetwork, IPAddress or EUI, `IPAddress` of an IPNetwork or EUI, and `EUI` of an IPNetwork or IPAddress are not modelled: netaddr either converts these or raises its own error, and the model reports TypeError. A list given to a netaddr cast also reports TypeError here, where netaddr may raise its address-format error instead.
- Link.ParsedLoopback: the flags text `LOOPBACK,UP,LOWER_UP` is a hypothesis, not derived from the full loopback line, and the line's mtu 65536 is not derived either.
- Link.GreNamePhy: it takes the parse's success as a hypothesis and does not show that the whole pattern matches the gre line.
- Link.LinkAttr: Python calls `__getattr__` only after finding no instance or class attribute. Class attributes such as `add`, `delete`, `cmd`, `regex` and `casts` are found first. This and the `AddressAttr` and `NeighborAttr` rows describe names that are none of these.
- `Address.AddressAttr`: its own contract says only that stored attributes come first and that failures are AttributeErrors. The scope behaviour is stated by `Address.ScopeAttr`, `Address.ScopeAttrUnset`, `Address.OtherAttr` and `Address.UnknownScopes`.
- `Neighbor.NeighborAttr`: its own contract gives only the stored-first rule and the error. The state behaviour is stated by `Neighbor.NudAttr` and `Neighbor.NudOther`.
- `Route.NexthopArgsOfLine`: it states the count of tokens only. Their contents are stated by `Route.TokensAt`.

## Findings

| source | as written | input that shows it | evidently intended | confidence | as-written member | corrected member |
|---|---|---|---|---|---|---|
| ipyroute/route.py:80-82 | `__hash__` returns the network attribute, an IPNetwork; Python's `hash()` raises TypeError for anything but an int | any parsed route, e.g. `10.0.0.0/8 dev eth0` | `hash(self.network)`: routes hash by their network | not executed | Route.HashOfParsedRouteRaises | Route.HashByNetwork |
| ipyroute/rule.py:7-8 | the from and to prefixes are `\w+`, which stops at the first `.`, `:` or `/` | `0: from 10.0.0.0/8 lookup main`: the optional from group fails, so fromprefix and lookup are both None and no error is raised | `\S+`, so that a prefix such as `10.0.0.0/8` is captured and cast to a network | not executed | Rule.AsWrittenLosesLookup | Rule.RuleSourceParsed |
