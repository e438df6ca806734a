/** `URLSearchParams`: an ordered list of name/value pairs, read from and written to
    the application/x-www-form-urlencoded format (section 5 of the WHATWG URL
    Standard), and the split of a navigation target into path, query and fragment. */
module Query {
  import opened Common
  import opened Text
  import opened UrlCoding

  datatype Param = Param(key: string, value: string)

  type Params = seq<Param>

  predicate HasKey(q: Params, k: string) {
    exists i :: 0 <= i < |q| && q[i].key == k
  }

  /** The index of the first pair named `k`, or `|q|`. */
  function FirstIndex(q: Params, k: string): (r: nat)
    ensures r <= |q|
    ensures forall j :: 0 <= j < r ==> q[j].key != k
    ensures r < |q| ==> q[r].key == k
    ensures r == |q| <==> !HasKey(q, k)
  {
    if q == [] then 0 else if q[0].key == k then 0 else 1 + FirstIndex(q[1..], k)
  }

  /** `q.get(k)`: the value of the first pair named `k`, `null` when there is none. */
  function Get(q: Params, k: string): (r: Option<string>)
    ensures r.Some? <==> HasKey(q, k)
    ensures r.Some? ==> exists i :: 0 <= i < |q| && q[i] == Param(k, r.value)
  {
    if q == [] then None
    else if q[0].key == k then Some(q[0].value)
    else
      assert forall i :: 1 <= i < |q| ==> q[i] == q[1..][i - 1];
      Get(q[1..], k)
  }

  /** `q.get(k) || d`: the default stands in for a missing and for an empty value. */
  function GetOr(q: Params, k: string, d: string): (r: string)
    ensures r == d || Get(q, k) == Some(r)
    ensures r != d ==> r != ""
  {
    match Get(q, k)
    case Some(v) => if v == "" then d else v
    case None => d
  }

  /** A value that JavaScript's `&&` and `if` accept: present and not empty. */
  predicate Truthy(v: Option<string>) {
    v.Some? && v.value != ""
  }

  /** `q.delete(k)`: every pair named `k` goes, the others stay in order. */
  function Delete(q: Params, k: string): (r: Params)
    ensures !HasKey(r, k)
    ensures |r| <= |q|
    ensures !HasKey(q, k) ==> r == q
  {
    if q == [] then []
    else if q[0].key == k then Delete(q[1..], k)
    else [q[0]] + Delete(q[1..], k)
  }

  /** `q.set(k, v)`: the first pair named `k` takes the value `v` and the later ones go;
      without such a pair, `k=v` is appended. */
  function Set(q: Params, k: string, v: string): (r: Params)
    ensures |r| <= |q| + 1 && HasKey(r, k)
    ensures FirstIndex(q, k) < |r| && r[..FirstIndex(q, k)] == q[..FirstIndex(q, k)] &&
            r[FirstIndex(q, k)] == Param(k, v)
  {
    var i := FirstIndex(q, k);
    var r := if i < |q| then q[..i] + [Param(k, v)] + Delete(q[i + 1..], k) else q + [Param(k, v)];
    assert r[i] == Param(k, v);
    r
  }

  /** The number of pairs named `k`. */
  function Count(q: Params, k: string): nat {
    if q == [] then 0 else (if q[0].key == k then 1 else 0) + Count(q[1..], k)
  }

  lemma {:induction false} DeleteOthers(q: Params, k: string, k2: string)
    requires k2 != k
    ensures Get(Delete(q, k), k2) == Get(q, k2)
    ensures Count(Delete(q, k), k2) == Count(q, k2)
  {
    if q != [] {
      DeleteOthers(q[1..], k, k2);
      if q[0].key != k {
        assert ([q[0]] + Delete(q[1..], k))[1..] == Delete(q[1..], k);
      }
    }
  }

  lemma {:induction false} CountDelete(q: Params, k: string)
    ensures Count(Delete(q, k), k) == 0
  {
    if q != [] {
      CountDelete(q[1..], k);
      if q[0].key != k {
        assert ([q[0]] + Delete(q[1..], k))[1..] == Delete(q[1..], k);
      }
    }
  }

  lemma {:induction false} CountAppend(a: Params, b: Params, k: string)
    ensures Count(a + b, k) == Count(a, k) + Count(b, k)
  {
    if a != [] {
      assert (a + b)[1..] == a[1..] + b;
      CountAppend(a[1..], b, k);
    } else {
      assert a + b == b;
    }
  }

  lemma {:induction false} CountPrefixFree(q: Params, k: string, n: nat)
    requires n <= |q| && forall j :: 0 <= j < n ==> q[j].key != k
    ensures Count(q[..n], k) == 0
  {
    if n > 0 {
      assert q[..n][1..] == q[1..][..n - 1];
      CountPrefixFree(q[1..], k, n - 1);
    }
  }

  /** After `q.set(k, v)`, `q.get(k)` is `v` and `k` occurs exactly once. */
  lemma SetGet(q: Params, k: string, v: string)
    ensures Get(Set(q, k, v), k) == Some(v)
    ensures Count(Set(q, k, v), k) == 1
  {
    var i := FirstIndex(q, k);
    if i < |q| {
      SetReplaces(q, k, v, i);
    } else {
      GetConcat(q, [Param(k, v)], k);
      CountAppend(q, [Param(k, v)], k);
      CountPrefixFree(q, k, |q|);
      assert q[..|q|] == q;
    }
  }

  /** `set` of a name the query has: the pairs before its first occurrence, the new pair,
      then the rest without that name. */
  lemma SetReplaces(q: Params, k: string, v: string, i: nat)
    requires i == FirstIndex(q, k) && i < |q|
    ensures Get(Set(q, k, v), k) == Some(v)
    ensures Count(Set(q, k, v), k) == 1
  {
    var front := q[..i];
    var back := [Param(k, v)] + Delete(q[i + 1..], k);
    assert Set(q, k, v) == front + back;
    assert !HasKey(front, k);
    GetConcat(front, back, k);
    CountAppend(front, back, k);
    CountPrefixFree(q, k, i);
    CountDelete(q[i + 1..], k);
    assert back[1..] == Delete(q[i + 1..], k);
  }

  lemma GetCons(p: Param, rest: Params, k: string)
    requires p.key != k
    ensures Get([p] + rest, k) == Get(rest, k)
  {
    assert ([p] + rest)[1..] == rest;
  }

  lemma HasKeyCons(q: Params, k: string)
    requires q != []
    ensures HasKey(q, k) <==> q[0].key == k || HasKey(q[1..], k)
  {
    if HasKey(q[1..], k) {
      var i :| 0 <= i < |q[1..]| && q[1..][i].key == k;
      assert q[i + 1].key == k;
    }
    if HasKey(q, k) && q[0].key != k {
      var i :| 0 <= i < |q| && q[i].key == k;
      assert q[1..][i - 1].key == k;
    }
  }

  /** `get` on a concatenation looks in the second part only when the first lacks the name. */
  lemma {:induction false} GetConcat(a: Params, b: Params, k: string)
    ensures Get(a + b, k) == if HasKey(a, k) then Get(a, k) else Get(b, k)
  {
    if a == [] {
      assert a + b == b;
    } else {
      assert (a + b)[0] == a[0] && (a + b)[1..] == a[1..] + b;
      GetConcat(a[1..], b, k);
      HasKeyCons(a, k);
    }
  }

  /** `q.set(k, v)` leaves the value of every other name as it was. */
  lemma SetOther(q: Params, k: string, v: string, k2: string)
    requires k2 != k
    ensures Get(Set(q, k, v), k2) == Get(q, k2)
  {
    var i := FirstIndex(q, k);
    if i < |q| {
      var a := q[..i];
      var tail := q[i + 1..];
      assert q == a + ([q[i]] + tail);
      GetConcat(a, [q[i]] + tail, k2);
      GetConcat(a, [Param(k, v)] + Delete(tail, k), k2);
      GetCons(q[i], tail, k2);
      GetCons(Param(k, v), Delete(tail, k), k2);
      DeleteOthers(tail, k, k2);
      assert Set(q, k, v) == a + ([Param(k, v)] + Delete(tail, k));
    } else {
      GetConcat(q, [Param(k, v)], k2);
      GetCons(Param(k, v), [], k2);
    }
  }

  /** After `q.delete(k)`, `q.get(k)` is `null` and every other name keeps its value. */
  lemma DeleteGet(q: Params, k: string, k2: string)
    ensures Get(Delete(q, k), k) == None
    ensures k2 != k ==> Get(Delete(q, k), k2) == Get(q, k2)
  {
    if k2 != k {
      DeleteOthers(q, k, k2);
    }
  }

  // ---------------------------------------------------------------------------
  // Serialization

  function SerializePair(p: Param): string {
    Encode(Form, p.key) + "=" + Encode(Form, p.value)
  }

  function Pieces(q: Params): (r: seq<string>)
    ensures |r| == |q|
  {
    if q == [] then [] else [SerializePair(q[0])] + Pieces(q[1..])
  }

  /** `q.toString()`. */
  function Serialize(q: Params): string {
    Join(Pieces(q), '&')
  }

  /** The query a string holds, as the `URLSearchParams` constructor reads it: one
      leading `?` is dropped, the rest is split at `&`, empty pieces are skipped, each
      piece is split at its first `=` (a piece without one is a name with an empty
      value), and names and values are form-decoded. */
  function Parse(s: string): Params {
    var body := if |s| > 0 && s[0] == '?' then s[1..] else s;
    ParsePieces(Split(body, '&'))
  }

  function ParsePieces(pieces: seq<string>): Params {
    if pieces == [] then []
    else (if pieces[0] == "" then [] else [ParsePiece(pieces[0])]) + ParsePieces(pieces[1..])
  }

  function ParsePiece(piece: string): Param {
    var i := IndexOf(piece, '=');
    if i < |piece| then Param(FormDecode(piece[..i]), FormDecode(piece[i + 1..]))
    else Param(FormDecode(piece), "")
  }

  lemma EncodeFreeOf(scheme: Scheme, s: string, c: char)
    requires !UrlSafe(c) && c != '+'
    ensures c !in Encode(scheme, s)
  {
    EncodeSafe(scheme, s);
  }

  lemma ParsePairPiece(p: Param)
    ensures SerializePair(p) != "" && '&' !in SerializePair(p)
    ensures ParsePiece(SerializePair(p)) == p
  {
    var k := Encode(Form, p.key);
    var v := Encode(Form, p.value);
    var piece := SerializePair(p);
    EncodeFreeOf(Form, p.key, '&');
    EncodeFreeOf(Form, p.value, '&');
    EncodeFreeOf(Form, p.key, '=');
    assert piece == k + "=" + v;
    assert piece[|k|] == '=';
    assert piece[..|k|] == k;
    assert IndexOf(piece, '=') == |k|;
    assert piece[|k| + 1..] == v;
    FormDecodeEncode(Form, p.key);
    FormDecodeEncode(Form, p.value);
  }

  /** One `name=value` piece as the handlers write it by hand: a form-encoded name and
      a value written by either encoder. */
  function EncodedPiece(k: string, scheme: Scheme, v: string): string {
    Encode(Form, k) + "=" + Encode(scheme, v)
  }

  lemma ParseEncodedPiece(k: string, scheme: Scheme, v: string)
    ensures var piece := EncodedPiece(k, scheme, v);
      piece != "" && piece[0] != '?' && '&' !in piece && '#' !in piece
    ensures ParsePiece(EncodedPiece(k, scheme, v)) == Param(k, v)
  {
    var e := Encode(Form, k);
    var w := Encode(scheme, v);
    var piece := EncodedPiece(k, scheme, v);
    EncodeFreeOf(Form, k, '&');
    EncodeFreeOf(scheme, v, '&');
    EncodeFreeOf(Form, k, '#');
    EncodeFreeOf(scheme, v, '#');
    EncodeFreeOf(Form, k, '=');
    EncodeFreeOf(Form, k, '?');
    assert piece == e + "=" + w;
    assert piece[|e|] == '=';
    assert piece[..|e|] == e;
    assert IndexOf(piece, '=') == |e|;
    assert piece[|e| + 1..] == w;
    if e != "" {
      assert piece[0] == e[0];
    }
    FormDecodeEncode(Form, k);
    FormDecodeEncode(scheme, v);
  }

  /** A query text of two such pieces reads back as the two pairs. */
  lemma ParseTwoPieces(a: string, b: string, pa: Param, pb: Param)
    requires a != "" && a[0] != '?' && '&' !in a && ParsePiece(a) == pa
    requires b != "" && '&' !in b && ParsePiece(b) == pb
    ensures Parse(a + "&" + b) == [pa, pb]
  {
    var t := a + ['&'] + b;
    assert t == a + "&" + b;
    SplitFree(b, '&');
    SplitAtSeparator(a, b, '&');
    var parts := Split(t, '&');
    assert parts == [a, b];
    assert t[0] == a[0];
    calc {
      Parse(t);
      ParsePieces(parts);
      [ParsePiece(a)] + ParsePieces([b]);
      { assert [b][1..] == []; }
      [ParsePiece(a)] + [ParsePiece(b)];
    }
  }

  /** A query text of one such piece reads back as the pair. */
  lemma ParseOnePiece(a: string, pa: Param)
    requires a != "" && a[0] != '?' && '&' !in a && ParsePiece(a) == pa
    ensures Parse(a) == [pa]
  {
    SplitFree(a, '&');
    assert Parse(a) == ParsePieces([a]);
    assert [a][1..] == [];
  }

  lemma {:induction false} ParsePiecesOfPairs(q: Params)
    ensures forall i :: 0 <= i < |Pieces(q)| ==> '&' !in Pieces(q)[i]
    ensures ParsePieces(Pieces(q)) == q
  {
    if q != [] {
      ParsePairPiece(q[0]);
      ParsePiecesOfPairs(q[1..]);
      assert Pieces(q)[0] == SerializePair(q[0]);
      assert Pieces(q)[1..] == Pieces(q[1..]);
      assert ParsePieces(Pieces(q)) == [q[0]] + q[1..];
    }
  }

  /** Reading back what `toString()` wrote gives the same pairs, in the same order. */
  lemma ParseSerialize(q: Params)
    ensures Parse(Serialize(q)) == q
  {
    if q != [] {
      ParsePiecesOfPairs(q);
      SplitJoin(Pieces(q), '&');
      NoLeadingQuestion(q);
    } else {
      assert Split("", '&') == [""];
      assert ParsePieces([""]) == [];
    }
  }

  lemma NoLeadingQuestion(q: Params)
    requires q != []
    ensures Serialize(q) != "" && Serialize(q)[0] != '?'
  {
    var k := Encode(Form, q[0].key);
    EncodeFreeOf(Form, q[0].key, '?');
    assert Pieces(q)[0] == SerializePair(q[0]);
    assert SerializePair(q[0]) == k + "=" + Encode(Form, q[0].value);
    if |q| == 1 {
      assert Serialize(q) == SerializePair(q[0]);
    } else {
      assert Serialize(q) == SerializePair(q[0]) + "&" + Join(Pieces(q)[1..], '&');
    }
    if k == "" {
      assert Serialize(q)[0] == '=';
    } else {
      assert Serialize(q)[0] == k[0];
    }
  }

  /** `q.toString()` is empty exactly when `q` holds no pairs. */
  lemma SerializeEmpty(q: Params)
    ensures Serialize(q) == "" <==> q == []
  {
    if q != [] {
      NoLeadingQuestion(q);
    }
  }

  lemma {:induction false} SerializeFree(q: Params, c: char)
    requires !UrlSafe(c) && c != '+' && c != '=' && c != '&'
    ensures c !in Serialize(q)
  {
    if q != [] {
      EncodeFreeOf(Form, q[0].key, c);
      EncodeFreeOf(Form, q[0].value, c);
      SerializeFree(q[1..], c);
      assert Pieces(q)[1..] == Pieces(q[1..]);
      assert Pieces(q)[0] == Encode(Form, q[0].key) + "=" + Encode(Form, q[0].value);
    }
  }

  // ---------------------------------------------------------------------------
  // Navigation targets

  /** A navigation target split as a URL parser splits it: the part before the query,
      the query's pairs, and the fragment with its `#` (empty when there is none). */
  datatype Target = Target(path: string, query: Params, hash: string)

  function ParseTarget(t: string): Target {
    var h := IndexOf(t, '#');
    var beforeHash := t[..h];
    var qi := IndexOf(beforeHash, '?');
    Target(beforeHash[..qi], Parse(beforeHash[qi..]), t[h..])
  }

  /** `path` with the query `q`; an empty query leaves the path alone, as the
      `` `${path}${q ? `?${q}` : ''}` `` templates do. */
  function WithQuery(path: string, q: Params): string {
    var s := Serialize(q);
    if s == "" then path else path + "?" + s
  }

  /** A target built from a plain path and a query parses back into the two. */
  lemma ParseWithQuery(path: string, q: Params)
    requires '?' !in path && '#' !in path
    ensures ParseTarget(WithQuery(path, q)) == Target(path, q, "")
  {
    SerializeEmpty(q);
    if q == [] {
      ParsePlainPath(path);
    } else {
      var s := Serialize(q);
      SerializeFree(q, '#');
      ParsePathQuery(path, s);
      ParseSerialize(q);
      NoLeadingQuestion(q);
      assert ("?" + s)[1..] == s;
    }
  }

  /** `path + '?' + s` for a query text `s` free of `#`. */
  lemma ParsePathQuery(path: string, s: string)
    requires '?' !in path && '#' !in path && '#' !in s
    ensures ParseTarget(path + "?" + s) == Target(path, Parse("?" + s), "")
  {
    var t := path + "?" + s;
    assert '#' !in t;
    assert t[..|t|] == t;
    assert t[|path|] == '?';
    assert t[..|path|] == path;
    assert IndexOf(t, '?') == |path|;
    assert t[|path|..] == "?" + s;
  }

  lemma ParsePlainPath(path: string)
    requires '?' !in path && '#' !in path
    ensures ParseTarget(path) == Target(path, [], "")
  {
    assert path[..|path|] == path;
    assert path[|path|..] == "";
    assert Split("", '&') == [""];
    assert ParsePieces([""]) == [];
  }

  /** `path + '?' + q.toString()` for a non-empty query parses back into the two. */
  lemma ParseQueryTarget(path: string, q: Params)
    requires '?' !in path && '#' !in path && q != []
    ensures ParseTarget(path + "?" + Serialize(q)) == Target(path, q, "")
  {
    SerializeEmpty(q);
    ParseWithQuery(path, q);
  }

  /** `path?name=value`, for a plain path and a name the form encoding keeps, reads
      back as the path and that one pair. */
  lemma TargetOfOnePiece(path: string, name: string, scheme: Scheme, v: string)
    requires '?' !in path && '#' !in path
    requires forall i :: 0 <= i < |name| ==> Keeps(Form, name[i])
    ensures ParseTarget(path + "?" + (name + "=" + Encode(scheme, v))) == Target(path, [Param(name, v)], "")
  {
    var piece := EncodedPiece(name, scheme, v);
    EncodeKept(Form, name);
    assert piece == name + "=" + Encode(scheme, v);
    ParseEncodedPiece(name, scheme, v);
    ParseOnePiece(piece, Param(name, v));
    assert ("?" + piece)[1..] == piece;
    ParsePathQuery(path, piece);
  }

  /** `path?a&b` for two such pieces reads back as the path and the two pairs. */
  lemma TargetOfTwoPieces(path: string, n1: string, s1: Scheme, v1: string, n2: string, s2: Scheme, v2: string)
    requires '?' !in path && '#' !in path
    requires forall i :: 0 <= i < |n1| ==> Keeps(Form, n1[i])
    requires forall i :: 0 <= i < |n2| ==> Keeps(Form, n2[i])
    ensures ParseTarget(path + "?" + ((n1 + "=" + Encode(s1, v1)) + "&" + (n2 + "=" + Encode(s2, v2)))) ==
      Target(path, [Param(n1, v1), Param(n2, v2)], "")
  {
    var a := EncodedPiece(n1, s1, v1);
    var b := EncodedPiece(n2, s2, v2);
    EncodeKept(Form, n1);
    EncodeKept(Form, n2);
    assert a == n1 + "=" + Encode(s1, v1);
    assert b == n2 + "=" + Encode(s2, v2);
    ParseEncodedPiece(n1, s1, v1);
    ParseEncodedPiece(n2, s2, v2);
    ParseTwoPieces(a, b, Param(n1, v1), Param(n2, v2));
    assert ("?" + (a + "&" + b))[1..] == a + "&" + b;
    ParsePathQuery(path, a + "&" + b);
  }

  /** `set` of a name the query lacks appends the pair. */
  lemma SetFresh(q: Params, k: string, v: string)
    requires !HasKey(q, k)
    ensures Set(q, k, v) == q + [Param(k, v)]
  {
  }

  // ---------------------------------------------------------------------------
  // Copying fields from one query to another

  /** No name occurs twice in `keys`. */
  predicate Distinct(keys: seq<string>) {
    forall i, j :: 0 <= i < j < |keys| ==> keys[i] != keys[j]
  }

  /** The names of `keys` whose value in `hp` is present and not empty, paired with that
      value, in the order of `keys`. */
  function Present(hp: Params, keys: seq<string>): Params {
    if keys == [] then []
    else
      var k := keys[|keys| - 1];
      var v := Get(hp, k);
      Present(hp, keys[..|keys| - 1]) + (if Truthy(v) then [Param(k, v.value)] else [])
  }

  /** A copy holds only fields of `keys`. */
  lemma {:induction false} PresentOnlyKeys(hp: Params, keys: seq<string>)
    ensures forall p :: p in Present(hp, keys) ==> p.key in keys
  {
    if keys != [] {
      var last := keys[|keys| - 1];
      var init := keys[..|keys| - 1];
      PresentOnlyKeys(hp, init);
      var tail := if Truthy(Get(hp, last)) then [Param(last, Get(hp, last).value)] else [];
      assert Present(hp, keys) == Present(hp, init) + tail;
      assert keys == init + [last];
    }
  }

  /** So a copy lacks every name outside `keys`. */
  lemma PresentKeys(hp: Params, keys: seq<string>, k: string)
    requires k !in keys
    ensures !HasKey(Present(hp, keys), k)
  {
    PresentOnlyKeys(hp, keys);
    var q := Present(hp, keys);
    forall i | 0 <= i < |q|
      ensures q[i].key != k
    {
      assert q[i] in q;
    }
  }

  /** Reading a copied field. */
  lemma {:induction false} GetPresent(hp: Params, keys: seq<string>, k: string)
    ensures Get(Present(hp, keys), k) == if k in keys && Truthy(Get(hp, k)) then Get(hp, k) else None
  {
    if keys != [] {
      var last := keys[|keys| - 1];
      var init := keys[..|keys| - 1];
      var front := Present(hp, init);
      var tail := if Truthy(Get(hp, last)) then [Param(last, Get(hp, last).value)] else [];
      assert Present(hp, keys) == front + tail;
      GetPresent(hp, init, k);
      GetTail(last, Get(hp, last), k);
      GetConcat(front, tail, k);
      assert keys == init + [last];
    }
  }

  /** Reading the piece one field adds to a copy. */
  lemma GetTail(key: string, v: Option<string>, k: string)
    ensures Get(if Truthy(v) then [Param(key, v.value)] else [], k) == if k == key && Truthy(v) then v else None
  {
    if Truthy(v) {
      assert [Param(key, v.value)][1..] == [];
    }
  }

  /** A loop that `set`s each field of `keys` that `hp` has with a non-empty value. */
  method CopyPresent(hp: Params, q0: Params, keys: seq<string>) returns (q: Params)
    requires Distinct(keys)
    requires forall i :: 0 <= i < |keys| ==> !HasKey(q0, keys[i])
    ensures q == q0 + Present(hp, keys)
  {
    q := q0;
    var i := 0;
    while i < |keys|
      invariant 0 <= i <= |keys|
      invariant q == q0 + Present(hp, keys[..i])
    {
      var k := keys[i];
      var v := Get(hp, k);
      assert keys[..i + 1][..i] == keys[..i];
      if Truthy(v) {
        assert k !in keys[..i];
        PresentKeys(hp, keys[..i], k);
        GetConcat(q0, Present(hp, keys[..i]), k);
        q := Set(q, k, v.value);
      }
      i := i + 1;
    }
    assert keys[..i] == keys;
  }
}
