/** The string logic of CookieStorage (src/adapters/cookie-storage.ts): the
    cookie string `setItem` builds and assigns to `document.cookie`, and the
    parse of the `document.cookie` header that the reading members go
    through. The browser's side of `document.cookie` is not modelled: the
    built string is the result of `setItem`, and the header is an input of
    every reading member. `encodeURIComponent` and `decodeURIComponent`
    are the parameters `encode` and `decode`. */
module Cookies {
  import opened Types
  import opened Strings

  /** The properties of a `CookieOptions` object. */
  datatype OptionName = MaxAge | Path | SameSite | Domain | Secure

  /** The property's own name. */
  function PropertyName(name: OptionName): string {
    match name
    case MaxAge => "maxAge"
    case Path => "path"
    case SameSite => "sameSite"
    case Domain => "domain"
    case Secure => "secure"
  }

  /** `parseOptionName`: the attribute written into the cookie string. Two
      names are renamed; the rest are written as they are. */
  function ParseOptionName(name: OptionName): (attribute: string)
    ensures name == MaxAge ==> attribute == "max-age"
    ensures name == SameSite ==> attribute == "same-site"
    ensures name != MaxAge && name != SameSite ==> attribute == PropertyName(name)
  {
    match name
    case MaxAge => "max-age"
    case SameSite => "same-site"
    case _ => PropertyName(name)
  }

  /** Different options never share an attribute name. */
  lemma ParseOptionNameIsInjective(a: OptionName, b: OptionName)
    requires a != b
    ensures ParseOptionName(a) != ParseOptionName(b)
  {
    match a
    case MaxAge => assert ParseOptionName(a)[0] == 'm';
    case Path => assert ParseOptionName(a)[0] == 'p';
    case SameSite => assert ParseOptionName(a)[1] == 'a';
    case Domain => assert ParseOptionName(a)[0] == 'd';
    case Secure => assert ParseOptionName(a)[1] == 'e';
  }

  /** An option's value: a number (`maxAge`), a string (`path`, `domain`,
      `sameSite`), a boolean (`secure`), or a property present with the
      value `undefined`. */
  datatype OptionValue = Num(n: int) | Str(s: string) | Flag(b: bool) | Undefined

  /** An option's value inside a template literal. */
  function ValueText(value: OptionValue): string {
    match value
    case Num(n) => IntToString(n)
    case Str(s) => s
    case Flag(b) => if b then "true" else "false"
    case Undefined => "undefined"
  }

  datatype CookieOption = CookieOption(name: OptionName, value: OptionValue)

  /** The properties of an options object, in its key order; an object has
      each property at most once. */
  predicate DistinctNames(options: seq<CookieOption>) {
    forall i, j :: 0 <= i < j < |options| ==> options[i].name != options[j].name
  }

  /** The options other than `path`, in their order. */
  function WithoutPath(options: seq<CookieOption>): (r: seq<CookieOption>)
    ensures forall o :: o in r <==> o in options && o.name != Path
    ensures |r| <= |options|
    ensures (forall i :: 0 <= i < |options| ==> options[i].name != Path) ==> r == options
    decreases |options|
  {
    if |options| == 0 then []
    else if options[0].name == Path then WithoutPath(options[1..])
    else
      assert (forall i :: 0 <= i < |options| ==> options[i].name != Path) ==>
             (forall i :: 0 <= i < |options[1..]| ==> options[1..][i].name != Path) by {
        if forall i :: 0 <= i < |options| ==> options[i].name != Path {
          forall i | 0 <= i < |options[1..]| ensures options[1..][i].name != Path {
            assert options[1..][i] == options[i + 1];
          }
        }
      }
      assert [options[0]] + options[1..] == options;
      [options[0]] + WithoutPath(options[1..])
  }

  /** Dropping `path` keeps the order of the other options: one option more
      at the end of the object is one more at the end of the result, unless
      it is `path`. */
  lemma {:induction false} WithoutPathAppend(options: seq<CookieOption>, o: CookieOption)
    ensures WithoutPath(options + [o]) == WithoutPath(options) + (if o.name == Path then [] else [o])
    decreases |options|
  {
    if |options| == 0 {
      assert [o][1..] == [];
    } else {
      assert (options + [o])[0] == options[0];
      assert (options + [o])[1..] == options[1..] + [o];
      WithoutPathAppend(options[1..], o);
    }
  }

  /** The value of the `path` option, or "/" without one. */
  function PathValue(options: seq<CookieOption>): (v: OptionValue)
    ensures (forall o :: o in options ==> o.name != Path) ==> v == Str("/")
    ensures (exists o :: o in options && o.name == Path) ==> exists o :: o in options && o.name == Path && o.value == v
    decreases |options|
  {
    if |options| == 0 then Str("/")
    else if options[0].name == Path then options[0].value
    else PathValue(options[1..])
  }

  /** `{ path: "/", ...options }`: `path` comes first, with the caller's
      value when one is given, then the other options in their order. */
  function MergeOptions(options: seq<CookieOption>): (opts: seq<CookieOption>)
    ensures |opts| >= 1 && opts[0] == CookieOption(Path, PathValue(options))
    ensures opts[1..] == WithoutPath(options)
  {
    [CookieOption(Path, PathValue(options))] + WithoutPath(options)
  }

  /** Dropping `path` keeps the properties of an object distinct. */
  lemma {:induction false} WithoutPathDistinct(options: seq<CookieOption>)
    requires DistinctNames(options)
    ensures DistinctNames(WithoutPath(options))
    decreases |options|
  {
    if |options| > 0 {
      var rest := options[1..];
      assert DistinctNames(rest) by {
        forall i, j | 0 <= i < j < |rest| ensures rest[i].name != rest[j].name {
          assert rest[i] == options[i + 1] && rest[j] == options[j + 1];
        }
      }
      WithoutPathDistinct(rest);
      if options[0].name != Path {
        var r := WithoutPath(rest);
        forall k | 0 <= k < |r| ensures r[k].name != options[0].name {
          assert r[k] in rest;
          var m :| 0 <= m < |rest| && rest[m] == r[k];
          assert rest[m] == options[m + 1];
        }
        assert WithoutPath(options) == [options[0]] + r;
      }
    }
  }

  /** Every attribute of a cookie string is named once: the merged options
      of an object carry distinct properties, and different properties are
      written under different attribute names. */
  lemma MergedAttributesDistinct(options: seq<CookieOption>)
    requires DistinctNames(options)
    ensures var opts := MergeOptions(options);
            forall i, j :: 0 <= i < j < |opts| ==> ParseOptionName(opts[i].name) != ParseOptionName(opts[j].name)
  {
    var opts := MergeOptions(options);
    WithoutPathDistinct(options);
    forall i, j | 0 <= i < j < |opts| ensures ParseOptionName(opts[i].name) != ParseOptionName(opts[j].name) {
      assert opts[j] == WithoutPath(options)[j - 1];
      assert opts[j] in WithoutPath(options);
      if i > 0 {
        assert opts[i] == WithoutPath(options)[i - 1];
      }
      ParseOptionNameIsInjective(opts[i].name, opts[j].name);
    }
  }

  /** One `; name` or `; name=value` of the cookie string: a value of
      exactly `true` adds no `=value`. */
  function Attribute(option: CookieOption): (r: string)
    ensures var name := ParseOptionName(option.name);
            |r| >= 2 + |name| && r[..2] == "; " && r[2..2 + |name|] == name
    // a flag set to `true` is the bare name; anything else is `=` and its text
    ensures var name := ParseOptionName(option.name);
            option.value == Flag(true) ==> |r| == 2 + |name|
    ensures var name := ParseOptionName(option.name);
            option.value != Flag(true) ==> r[2 + |name|..] == "=" + ValueText(option.value)
  {
    var head := "; " + ParseOptionName(option.name);
    if option.value == Flag(true) then head
    else
      var r := head + ("=" + ValueText(option.value));
      assert r[..|head|] == head && r[|head|..] == "=" + ValueText(option.value);
      r
  }

  /** `base` followed by the attributes of the options, in order. */
  function Build(base: string, options: seq<CookieOption>): (cookie: string)
    ensures |base| <= |cookie| && cookie[..|base|] == base
    decreases |options|
  {
    if |options| == 0 then base else Build(base, options[..|options| - 1]) + Attribute(options[|options| - 1])
  }

  /** The string `setItem` assigns to `document.cookie`. */
  function CookieString(encode: string -> string, key: string, value: string, options: seq<CookieOption>): (cookie: string)
    // the cookie string starts with the encoded `name=value`
    ensures var base := encode(key) + "=" + encode(value);
            |base| <= |cookie| && cookie[..|base|] == base
  {
    Build(encode(key) + "=" + encode(value), MergeOptions(options))
  }

  /** `setItem`: builds the cookie string option by option; the result is
      what is assigned to `document.cookie`. */
  method SetItem(encode: string -> string, key: string, value: string, options: seq<CookieOption>) returns (cookie: string)
    ensures cookie == CookieString(encode, key, value, options)
  {
    var k := encode(key);
    var v := encode(value);
    var opts := MergeOptions(options);
    var baseCookie := k + "=" + v;
    cookie := AppendAttributes(baseCookie, opts);
  }

  /** The `for ... in` loop of `setItem`: `; name`, then `=value` unless
      the value is `true`, for each option in turn. */
  method AppendAttributes(baseCookie: string, opts: seq<CookieOption>) returns (cookie: string)
    ensures cookie == Build(baseCookie, opts)
  {
    cookie := baseCookie;
    var i := 0;
    while i < |opts|
      invariant 0 <= i <= |opts|
      invariant cookie == Build(baseCookie, opts[..i])
    {
      BuildStep(baseCookie, opts, i);
      AttributeStep(cookie, opts[i]);
      cookie := cookie + ("; " + ParseOptionName(opts[i].name));
      if opts[i].value != Flag(true) {
        cookie := cookie + ("=" + ValueText(opts[i].value));
      }
      i := i + 1;
    }
    assert opts[..i] == opts;
  }

  /** One more option adds its attribute to the built string. */
  lemma BuildStep(base: string, opts: seq<CookieOption>, i: nat)
    requires i < |opts|
    ensures Build(base, opts[..i + 1]) == Build(base, opts[..i]) + Attribute(opts[i])
  {
    assert opts[..i + 1][..i] == opts[..i] && opts[..i + 1][i] == opts[i];
  }

  /** The two appends of one loop turn make the option's attribute. */
  lemma AttributeStep(cookie: string, option: CookieOption)
    ensures var named := cookie + ("; " + ParseOptionName(option.name));
            (if option.value != Flag(true) then named + ("=" + ValueText(option.value)) else named) ==
            cookie + Attribute(option)
  {
  }

  /** `removeItem(key)`: `setItem(key, "", { maxAge: -1 })`, the cookie
      with an empty value and a lifetime already over. */
  method RemoveItem(encode: string -> string, key: string) returns (cookie: string)
    ensures cookie == encode(key) + "=" + encode("") + "; path=/" + "; max-age=-1"
  {
    cookie := SetItem(encode, key, "", [CookieOption(MaxAge, Num(-1))]);
    ExpiredCookieAttributes(encode(key) + "=" + encode(""));
  }

  lemma ExpiredCookieAttributes(base: string)
    ensures Build(base, MergeOptions([CookieOption(MaxAge, Num(-1))])) == base + "; path=/" + "; max-age=-1"
  {
    var opts := [CookieOption(Path, Str("/")), CookieOption(MaxAge, Num(-1))];
    assert MergeOptions([CookieOption(MaxAge, Num(-1))]) == opts;
    PathAttribute();
    MaxAgeAttribute();
    BuildTwo(base, opts[0], opts[1]);
  }

  lemma PathAttribute()
    ensures Attribute(CookieOption(Path, Str("/"))) == "; path=/"
  {
  }

  lemma MaxAgeAttribute()
    ensures Attribute(CookieOption(MaxAge, Num(-1))) == "; max-age=-1"
  {
    assert NatToString(1) == [DigitChar(1)];
    assert DigitChar(1) == '1';
    assert IntToString(-1) == "-1";
  }

  lemma BuildTwo(base: string, a: CookieOption, b: CookieOption)
    ensures Build(base, [a, b]) == base + Attribute(a) + Attribute(b)
  {
    assert [a, b][..1] == [a];
    assert [a][..0] == [];
    assert Build(base, [a]) == base + Attribute(a);
  }

  /** The cookie string starts with the encoded pair, followed by the
      `path` attribute: `/` unless the caller gives one. */
  lemma PathComesFirst(encode: string -> string, key: string, value: string, options: seq<CookieOption>)
    ensures var pair := encode(key) + "=" + encode(value);
            var path := Attribute(CookieOption(Path, PathValue(options)));
            var cookie := CookieString(encode, key, value, options);
            |pair + path| <= |cookie| && cookie[..|pair + path|] == pair + path
  {
    var pair := encode(key) + "=" + encode(value);
    var opts := MergeOptions(options);
    assert opts[..1] == [opts[0]] && [opts[0]][..0] == [];
    assert Build(pair, []) == pair;
    assert Build(pair, opts[..1]) == pair + Attribute(opts[0]);
    BuildPrefix(pair, opts, 1);
  }

  /** The string built from a prefix of the options is a prefix of the
      string built from all of them. */
  lemma {:induction false} BuildPrefix(base: string, options: seq<CookieOption>, n: nat)
    requires n <= |options|
    ensures |Build(base, options[..n])| <= |Build(base, options)|
    ensures Build(base, options)[..|Build(base, options[..n])|] == Build(base, options[..n])
    decreases |options| - n
  {
    if n < |options| {
      var m := |options|;
      assert options[..m - 1][..n] == options[..n];
      BuildPrefix(base, options[..m - 1], n);
    } else {
      assert options[..n] == options;
    }
  }

  /** `secure: false` is written out as `; secure=false`, `secure: true` as
      a bare `; secure`. */
  lemma SecureFlagAttributes()
    ensures Attribute(CookieOption(Secure, Flag(false))) == "; secure=false"
    ensures Attribute(CookieOption(Secure, Flag(true))) == "; secure"
  {
    assert ParseOptionName(Secure) == "secure";
    assert ValueText(Flag(false)) == "false";
  }

  /** The cookies as the `cookies` getter builds them: the names in the
      order `Object.keys` lists them (order of first appearance) and the
      value each name last received. */
  datatype Jar = Jar(names: seq<string>, values: map<string, string>)

  ghost predicate ValidJar(jar: Jar) {
    Distinct(jar.names) && forall k :: k in jar.values <==> k in jar.names
  }

  /** `{ ...acc, [key]: value }`: a name already present keeps its place
      and takes the new value; a new name goes to the end. */
  function AddCookie(jar: Jar, key: string, value: string): (r: Jar)
    ensures ValidJar(jar) ==> ValidJar(r)
    ensures r.values == jar.values[key := value]
    ensures r.names == if key in jar.values then jar.names else jar.names + [key]
  {
    if key in jar.values then jar.(values := jar.values[key := value])
    else
      var r := Jar(jar.names + [key], jar.values[key := value]);
      assert ValidJar(jar) ==> Distinct(r.names) by {
        if ValidJar(jar) {
          forall i, j | 0 <= i < j < |r.names| ensures r.names[i] != r.names[j] {
            if j == |jar.names| {
              assert r.names[i] == jar.names[i];
            }
          }
        }
      }
      r
  }

  /** One `;`-separated segment, split on `=`: the decoded, trimmed text
      before the first `=` and between the first and second `=`. A segment
      without `=` has no second part, and calling `trim` on that undefined
      part throws. */
  function ParseSegment(segment: string, decode: string -> string): (r: Result<(string, string), Error>)
    ensures r.Err? <==> '=' !in segment
    ensures r.Err? ==> r.error == CookieWithoutValue(segment)
    ensures r.Ok? ==> |Split(segment, '=')| >= 2
    ensures r.Ok? ==> r.value.0 == decode(Trim(Split(segment, '=')[0])) &&
                      r.value.1 == decode(Trim(Split(segment, '=')[1]))
  {
    var pieces := Split(segment, '=');
    SplitIsOnePiece(segment, '=');
    if |pieces| < 2 then Err(CookieWithoutValue(segment))
    else Ok((decode(Trim(pieces[0])), decode(Trim(pieces[1]))))
  }

  /** The `(name, value)` of every segment, in order, or the error of the
      first segment that throws. */
  function Pairs(segments: seq<string>, decode: string -> string): (r: Result<seq<(string, string)>, Error>)
    ensures r.Ok? ==> |r.value| == |segments|
    decreases |segments|
  {
    if |segments| == 0 then Ok([])
    else
      var prior := Pairs(segments[..|segments| - 1], decode);
      var last := ParseSegment(segments[|segments| - 1], decode);
      if prior.Err? then prior
      else if last.Err? then Err(last.error)
      else Ok(prior.value + [last.value])
  }

  /** The segment has an `=`, so it has a value part. */
  predicate HasValue(segment: string) {
    '=' in segment
  }

  /** The index of the first segment without an `=`; `|segments|` when
      every segment has one. */
  function FirstWithoutValue(segments: seq<string>): (i: nat)
    ensures i <= |segments|
    ensures forall j :: 0 <= j < i ==> HasValue(segments[j])
    ensures i < |segments| ==> !HasValue(segments[i])
    decreases |segments|
  {
    if |segments| == 0 then 0
    else
      var n := |segments|;
      var first := FirstWithoutValue(segments[..n - 1]);
      assert forall j :: 0 <= j < n - 1 ==> segments[..n - 1][j] == segments[j];
      if first < n - 1 then first else if HasValue(segments[n - 1]) then n else n - 1
  }

  /** The pairs fail exactly when some segment has no `=`, and then with
      the error of the first such segment. */
  lemma {:induction false} PairsError(segments: seq<string>, decode: string -> string)
    ensures Pairs(segments, decode).Err? <==> FirstWithoutValue(segments) < |segments|
    ensures Pairs(segments, decode).Err? ==>
              Pairs(segments, decode).error == CookieWithoutValue(segments[FirstWithoutValue(segments)])
    decreases |segments|
  {
    var n := |segments|;
    if n > 0 {
      var prefix := segments[..n - 1];
      PairsError(prefix, decode);
      PairsSnoc(segments, decode);
      var first := FirstWithoutValue(prefix);
      if first < n - 1 {
        assert prefix[first] == segments[first];
      }
    }
  }

  /** The last segment decides only when the earlier ones all parse. */
  lemma PairsSnoc(segments: seq<string>, decode: string -> string)
    requires |segments| > 0
    ensures var prior := Pairs(segments[..|segments| - 1], decode);
            && (Pairs(segments, decode).Err? <==> prior.Err? || !HasValue(segments[|segments| - 1]))
            && (prior.Err? ==> Pairs(segments, decode) == prior)
            && (prior.Ok? && !HasValue(segments[|segments| - 1]) ==>
                  Pairs(segments, decode) == Err(CookieWithoutValue(segments[|segments| - 1])))
  {
  }

  /** The pairs are those of the segments, one for one. */
  lemma {:induction false} PairsAt(segments: seq<string>, decode: string -> string, i: nat)
    requires i < |segments| && Pairs(segments, decode).Ok?
    ensures ParseSegment(segments[i], decode).Ok?
    ensures Pairs(segments, decode).value[i] == ParseSegment(segments[i], decode).value
    decreases |segments|
  {
    var n := |segments|;
    if i < n - 1 {
      PairsAt(segments[..n - 1], decode, i);
      assert segments[..n - 1][i] == segments[i];
    }
  }

  /** The `reduce` of the pairs into one object. */
  function Fold(pairs: seq<(string, string)>): (jar: Jar)
    ensures ValidJar(jar)
    decreases |pairs|
  {
    if |pairs| == 0 then Jar([], map[])
    else AddCookie(Fold(pairs[..|pairs| - 1]), pairs[|pairs| - 1].0, pairs[|pairs| - 1].1)
  }

  /** A name ends with the value of the last pair that sets it. */
  lemma {:induction false} LastPairWins(pairs: seq<(string, string)>, i: nat)
    requires i < |pairs|
    requires forall j :: i < j < |pairs| ==> pairs[j].0 != pairs[i].0
    ensures pairs[i].0 in Fold(pairs).values && Fold(pairs).values[pairs[i].0] == pairs[i].1
    decreases |pairs|
  {
    var n := |pairs|;
    FoldValues(pairs);
    if i < n - 1 {
      var prefix := pairs[..n - 1];
      assert prefix[i] == pairs[i];
      forall j | i < j < |prefix| ensures prefix[j].0 != prefix[i].0 {
        assert prefix[j] == pairs[j];
      }
      LastPairWins(prefix, i);
    }
  }

  /** The last pair updates the values folded so far. */
  lemma FoldValues(pairs: seq<(string, string)>)
    requires |pairs| > 0
    ensures Fold(pairs).values == Fold(pairs[..|pairs| - 1]).values[pairs[|pairs| - 1].0 := pairs[|pairs| - 1].1]
  {
  }

  /** Some pair sets the name `k`. */
  predicate Occurs(pairs: seq<(string, string)>, k: string) {
    exists i :: 0 <= i < |pairs| && pairs[i].0 == k
  }

  /** The position of the first pair that sets `k`. */
  function FirstIndex(pairs: seq<(string, string)>, k: string): (n: nat)
    requires Occurs(pairs, k)
    ensures n < |pairs| && pairs[n].0 == k
    ensures forall j :: 0 <= j < n ==> pairs[j].0 != k
    decreases |pairs|
  {
    var m := |pairs| - 1;
    assert forall j :: 0 <= j < m ==> pairs[..m][j] == pairs[j];
    if Occurs(pairs[..m], k) then FirstIndex(pairs[..m], k) else m
  }

  /** A name occurs in the pairs when it occurs before the last pair or is
      the last pair's name; a name that occurs before the last pair first
      occurs where it first occurs there. */
  lemma OccursSnoc(pairs: seq<(string, string)>, k: string)
    requires |pairs| > 0
    ensures Occurs(pairs, k) <==> Occurs(pairs[..|pairs| - 1], k) || k == pairs[|pairs| - 1].0
    ensures Occurs(pairs[..|pairs| - 1], k) ==> FirstIndex(pairs, k) == FirstIndex(pairs[..|pairs| - 1], k)
    ensures !Occurs(pairs[..|pairs| - 1], k) && k == pairs[|pairs| - 1].0 ==> FirstIndex(pairs, k) == |pairs| - 1
  {
    var prefix := pairs[..|pairs| - 1];
    if Occurs(pairs, k) && k != pairs[|pairs| - 1].0 {
      var i :| 0 <= i < |pairs| && pairs[i].0 == k;
      assert prefix[i] == pairs[i];
    }
    if Occurs(prefix, k) {
      var i :| 0 <= i < |prefix| && prefix[i].0 == k;
      assert pairs[i] == prefix[i];
    }
  }

  /** The names of the folded pairs are exactly the names the pairs set,
      each listed once, in the order of the first pair that sets it. */
  lemma {:induction false} FoldNames(pairs: seq<(string, string)>)
    ensures forall k :: k in Fold(pairs).values <==> Occurs(pairs, k)
    ensures forall i :: 0 <= i < |Fold(pairs).names| ==> Occurs(pairs, Fold(pairs).names[i])
    ensures forall i, j :: 0 <= i < j < |Fold(pairs).names| ==>
              FirstIndex(pairs, Fold(pairs).names[i]) < FirstIndex(pairs, Fold(pairs).names[j])
    decreases |pairs|
  {
    var n := |pairs|;
    if n > 0 {
      var prefix := pairs[..n - 1];
      var last := pairs[n - 1];
      var before := Fold(prefix);
      var names := Fold(pairs).names;
      FoldNames(prefix);
      forall k ensures k in Fold(pairs).values <==> Occurs(pairs, k) {
        OccursSnoc(pairs, k);
      }
      forall i | 0 <= i < |names| ensures Occurs(pairs, names[i]) {
        OccursSnoc(pairs, names[i]);
      }
      forall i, j | 0 <= i < j < |names| ensures FirstIndex(pairs, names[i]) < FirstIndex(pairs, names[j]) {
        OccursSnoc(pairs, names[i]);
        OccursSnoc(pairs, names[j]);
        if last.0 !in before.values && j == |before.names| {
          assert names[i] == before.names[i];
        } else {
          assert names[i] == before.names[i] && names[j] == before.names[j];
        }
      }
    }
  }

  /** The `cookies` getter over a `document.cookie` header. */
  function Parse(header: string, decode: string -> string): (r: Result<Jar, Error>)
    ensures r.Ok? ==> ValidJar(r.value)
    // it throws iff some segment has no `=`, with the first such segment's error
    ensures r.Err? <==> FirstWithoutValue(Split(header, ';')) < |Split(header, ';')|
    ensures r.Err? ==> r.error == CookieWithoutValue(Split(header, ';')[FirstWithoutValue(Split(header, ';'))])
  {
    var segments := Split(header, ';');
    var pairs := Pairs(segments, decode);
    PairsError(segments, decode);
    if pairs.Err? then Err(pairs.error) else Ok(Fold(pairs.value))
  }

  /** The name a segment sets: its text before the first `=`, trimmed and
      decoded. */
  function SegmentKey(segment: string, decode: string -> string): string {
    decode(Trim(Split(segment, '=')[0]))
  }

  /** A later duplicate name overwrites an earlier one: each name ends with
      the value of the last segment that sets it. */
  lemma LastSegmentWins(header: string, decode: string -> string, i: nat)
    requires Parse(header, decode).Ok?
    requires i < |Split(header, ';')|
    requires var segments := Split(header, ';');
             forall j :: i < j < |segments| ==> SegmentKey(segments[j], decode) != SegmentKey(segments[i], decode)
    ensures ParseSegment(Split(header, ';')[i], decode).Ok?
    ensures var segment := Split(header, ';')[i];
            var values := Parse(header, decode).value.values;
            SegmentKey(segment, decode) in values && values[SegmentKey(segment, decode)] == ParseSegment(segment, decode).value.1
  {
    var segments := Split(header, ';');
    var pairs := Pairs(segments, decode).value;
    PairsAt(segments, decode, i);
    forall j | i < j < |pairs| ensures pairs[j].0 != pairs[i].0 {
      PairsAt(segments, decode, j);
    }
    LastPairWins(pairs, i);
  }

  /** The names `Object.keys` lists are those the segments set, each once,
      in the order of the first segment that sets it (pair `i` is segment
      `i`'s name and value). */
  lemma ParseNames(header: string, decode: string -> string)
    requires Parse(header, decode).Ok?
    ensures Pairs(Split(header, ';'), decode).Ok?
    ensures forall k :: k in Parse(header, decode).value.values <==> SetsName(Split(header, ';'), decode, k)
    ensures forall i :: 0 <= i < |Parse(header, decode).value.names| ==>
              Occurs(Pairs(Split(header, ';'), decode).value, Parse(header, decode).value.names[i])
    ensures forall i, j :: 0 <= i < j < |Parse(header, decode).value.names| ==>
              FirstIndex(Pairs(Split(header, ';'), decode).value, Parse(header, decode).value.names[i]) <
              FirstIndex(Pairs(Split(header, ';'), decode).value, Parse(header, decode).value.names[j])
  {
    var segments := Split(header, ';');
    var pairs := Pairs(segments, decode).value;
    assert Parse(header, decode).value == Fold(pairs);
    PairKeys(segments, decode);
    FoldNames(pairs);
  }

  /** Some segment sets the name `k`. */
  predicate SetsName(segments: seq<string>, decode: string -> string, k: string) {
    exists i :: 0 <= i < |segments| && SegmentKey(segments[i], decode) == k
  }

  /** Pair `i` carries segment `i`'s name, so a name occurs among the pairs
      exactly when some segment sets it. */
  lemma PairKeys(segments: seq<string>, decode: string -> string)
    requires Pairs(segments, decode).Ok?
    ensures forall i :: 0 <= i < |segments| ==> Pairs(segments, decode).value[i].0 == SegmentKey(segments[i], decode)
    ensures forall k :: Occurs(Pairs(segments, decode).value, k) <==> SetsName(segments, decode, k)
  {
    var pairs := Pairs(segments, decode).value;
    forall i | 0 <= i < |segments| ensures pairs[i].0 == SegmentKey(segments[i], decode) {
      PairsAt(segments, decode, i);
    }
    forall k ensures Occurs(pairs, k) <==> SetsName(segments, decode, k) {
      if Occurs(pairs, k) {
        var i :| 0 <= i < |pairs| && pairs[i].0 == k;
        assert SegmentKey(segments[i], decode) == k;
      }
    }
  }

  /** An empty header, the `document.cookie` of a page without cookies,
      makes every reading member throw. */
  lemma EmptyHeaderThrows(decode: string -> string)
    ensures Parse("", decode) == Err(CookieWithoutValue(""))
  {
    assert Split("", ';') == [""];
    assert Pairs([""], decode) == Err(CookieWithoutValue(""));
  }

  /** `length`: the number of distinct cookie names. */
  function Length(header: string, decode: string -> string): (r: Result<nat, Error>)
    ensures r.Err? <==> Parse(header, decode).Err?
    ensures r.Ok? ==> r.value == |Parse(header, decode).value.values|
  {
    match Parse(header, decode)
    case Err(e) => Err(e)
    case Ok(jar) =>
      DistinctCardinality(jar.names);
      assert jar.values.Keys == set k | k in jar.names;
      Ok(|jar.names|)
  }

  /** `getItem`: the value of a cookie, None (undefined) for a name that is
      not there. */
  function GetItem(header: string, decode: string -> string, key: string): (r: Result<Option<string>, Error>)
    ensures r.Err? <==> Parse(header, decode).Err?
    ensures r.Ok? ==> (r.value.Some? <==> key in Parse(header, decode).value.values)
    ensures r.Ok? && r.value.Some? ==> r.value.value == Parse(header, decode).value.values[key]
  {
    match Parse(header, decode)
    case Err(e) => Err(e)
    case Ok(jar) => Ok(if key in jar.values then Some(jar.values[key]) else None)
  }

  /** `key(index)`: the VALUE of the index-th cookie name; out of range the
      lookup is of the name "undefined". */
  function Key(header: string, decode: string -> string, index: int): (r: Result<Option<string>, Error>)
    ensures r.Err? <==> Parse(header, decode).Err?
    ensures r.Ok? && 0 <= index < |Parse(header, decode).value.names| ==>
              var jar := Parse(header, decode).value;
              r.value == Some(jar.values[jar.names[index]])
    ensures r.Ok? && !(0 <= index < |Parse(header, decode).value.names|) ==>
              r == GetItem(header, decode, "undefined")
  {
    match Parse(header, decode)
    case Err(e) => Err(e)
    case Ok(jar) =>
      if 0 <= index < |jar.names| then GetItem(header, decode, jar.names[index])
      else GetItem(header, decode, "undefined")
  }

  /** `clear` is not implemented and always throws. */
  function Clear(): (thrown: Error)
    ensures thrown.NotImplemented?
  {
    NotImplemented
  }
}
