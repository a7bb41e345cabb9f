/** Percent-encoding of query values and its decoder, and the check on escapes in a request's path. */
module Uri {
  import opened Options
  import opened Sequences

  /** A byte of a string, as a character below 256. */
  predicate IsByte(c: char) { c as int < 256 }

  predicate Bytes(s: string) { forall i :: 0 <= i < |s| ==> IsByte(s[i]) }

  // ----- Encoding

  const HEX := "0123456789ABCDEF"

  /** Section 2.3 of RFC 3986, and the characters encodeURIComponent keeps besides. */
  predicate Kept(c: char) {
    'a' <= c <= 'z' || 'A' <= c <= 'Z' || '0' <= c <= '9' || c in "-_.!~*'()"
  }

  function Escape(c: char): (s: string)
    requires IsByte(c)
    ensures |s| == 3 && s[0] == '%'
  {
    ['%', HEX[c as int / 16], HEX[c as int % 16]]
  }

  function EncodeByte(c: char): string
    requires IsByte(c)
  {
    if Kept(c) then [c] else Escape(c)
  }

  function Encode(value: string): string
    requires Bytes(value)
  {
    if value == [] then [] else Encode(value[..|value| - 1]) + EncodeByte(value[|value| - 1])
  }

  method EncodeURIComponent(value: string) returns (encoded: string)
    requires Bytes(value)
    ensures encoded == Encode(value)
  {
    encoded := "";
    for index := 0 to |value|
      invariant encoded == Encode(value[..index])
    {
      assert value[..index + 1][..index] == value[..index];
      var c := value[index];
      if Kept(c) {
        encoded := encoded + [c];
      } else {
        encoded := encoded + ['%'] + [HEX[c as int / 16]] + [HEX[c as int % 16]];
        assert Encode(value[..index]) + ['%'] + [HEX[c as int / 16]] + [HEX[c as int % 16]] == Encode(value[..index]) + Escape(c);
      }
    }
    assert value[..|value|] == value;
  }

  // ----- Decoding

  predicate IsHex(c: char) { '0' <= c <= '9' || 'a' <= c <= 'f' || 'A' <= c <= 'F' }

  function HexValue(c: char): (v: int)
    requires IsHex(c)
    ensures 0 <= v < 16
  {
    if c <= '9' then c as int - '0' as int else if c <= 'F' then c as int - 'A' as int + 10 else c as int - 'a' as int + 10
  }

  predicate EscapeAt(s: string, i: nat) { i + 2 < |s| && IsHex(s[i + 1]) && IsHex(s[i + 2]) }

  /** Section 2.1 of RFC 3986: `%` and two hexadecimal digits, of either case. */
  function Decode(s: string): Option<string>
    decreases |s|
  {
    if s == [] then Some([])
    else if s[0] != '%' then
      match Decode(s[1..])
      case None => None
      case Some(rest) => Some([s[0]] + rest)
    else if !EscapeAt(s, 0) then None
    else
      match Decode(s[3..])
      case None => None
      case Some(rest) => Some([(16 * HexValue(s[1]) + HexValue(s[2])) as char] + rest)
  }

  lemma HexDigits(v: int)
    requires 0 <= v < 16
    ensures IsHex(HEX[v]) && HexValue(HEX[v]) == v && HEX[v] != '%'
  {}

  lemma DecodeByte(c: char, rest: string)
    requires IsByte(c)
    ensures Decode(EncodeByte(c) + rest) == match Decode(rest) case None => None case Some(r) => Some([c] + r)
  {
    HexDigits(c as int / 16);
    HexDigits(c as int % 16);
    var s := EncodeByte(c) + rest;
    if Kept(c) {
      assert s[1..] == rest;
    } else {
      assert s[3..] == rest;
      assert 16 * (c as int / 16) + c as int % 16 == c as int;
    }
  }

  lemma EncodeSnoc(init: string, last: char)
    requires Bytes(init) && IsByte(last)
    ensures Bytes(init + [last]) && Encode(init + [last]) == Encode(init) + EncodeByte(last)
  {
    hide EncodeByte;
    assert (init + [last])[..|init|] == init;
  }

  lemma {:induction false} EncodeFirst(value: string)
    requires Bytes(value) && value != []
    ensures Encode(value) == EncodeByte(value[0]) + Encode(value[1..])
    decreases |value|
  {
    hide EncodeByte, Encode;
    var n := |value| - 1;
    var last := value[n];
    assert value == value[..n] + [last];
    EncodeSnoc(value[..n], last);
    if n == 0 {
      NothingEncoded();
      assert value[..0] == [] && value[1..] == [];
      assert [] + EncodeByte(last) == EncodeByte(last) + [];
    } else {
      EncodeFirst(value[..n]);
      var middle := value[1..n];
      assert value[..n][1..] == middle && value[1..] == middle + [last];
      EncodeSnoc(middle, last);
      SeqAssociative(EncodeByte(value[0]), Encode(middle), EncodeByte(last));
    }
  }

  lemma NothingEncoded()
    ensures Encode([]) == []
  {}

  /** Decoding what was encoded gives it back, whatever its bytes. */
  lemma {:induction false} DecodeEncoded(value: string)
    requires Bytes(value)
    ensures Decode(Encode(value)) == Some(value)
  {
    hide Encode, EncodeByte;
    if value == [] {
      NothingEncoded();
    } else {
      EncodeFirst(value);
      DecodeEncoded(value[1..]);
      DecodeByte(value[0], Encode(value[1..]));
      assert [value[0]] + value[1..] == value;
    }
  }

  /** What an encoded value is made of: kept characters and escapes, so none of the characters a URI gives a meaning. */
  lemma {:induction false} EncodedCharacters(value: string)
    requires Bytes(value)
    ensures forall i :: 0 <= i < |Encode(value)| ==> Kept(Encode(value)[i]) || Encode(value)[i] == '%'
  {
    if value != [] {
      EncodedCharacters(value[..|value| - 1]);
      var c := value[|value| - 1];
      HexKept(c as int / 16);
      HexKept(c as int % 16);
    }
  }

  lemma HexKept(v: int)
    requires 0 <= v < 16
    ensures Kept(HEX[v])
  {}

  // ----- The encoding, character by character

  /** Letters, digits, hyphen, full stop, underscore, tilde; and exclamation mark, asterisk, apostrophe, parentheses. */
  predicate Unreserved(c: char) {
    var n := c as int;
    || 65 <= n <= 90 || 97 <= n <= 122 || 48 <= n <= 57
    || n == 45 || n == 46 || n == 95 || n == 126 || n == 33 || n == 42 || n == 39 || n == 40 || n == 41
  }

  predicate UpperHex(c: char) { 48 <= c as int <= 57 || 65 <= c as int <= 70 }

  lemma KeptIsUnreserved(c: char)
    ensures Kept(c) <==> Unreserved(c)
  {}

  /** Unreserved characters stand for themselves; every other byte is a percent sign and two upper-case digits. */
  lemma {:induction false} EncodedExactly(value: string)
    requires Bytes(value)
    ensures (forall i :: 0 <= i < |value| ==> Unreserved(value[i])) ==> Encode(value) == value
    ensures EscapedOnly(Encode(value))
    decreases |value|
  {
    hide Kept, EncodeByte, EscapedOnly, Unreserved;
    if value == [] {
      NothingEscaped();
    } else {
      var n := |value| - 1;
      var c := value[n];
      EncodedExactly(value[..n]);
      OneExactly(c);
      EscapedConcat(Encode(value[..n]), EncodeByte(c));
      assert value[..n] + [c] == value;
    }
  }

  predicate StandsOrEscapes(s: string, i: nat)
    requires i < |s|
  {
    Unreserved(s[i]) || (s[i] == '%' && i + 2 < |s| && UpperHex(s[i + 1]) && UpperHex(s[i + 2]))
  }

  /** Unreserved characters, and percent signs with two upper-case digits. */
  predicate EscapedOnly(s: string) { forall i :: 0 <= i < |s| ==> StandsOrEscapes(s, i) }

  lemma NothingEscaped()
    ensures EscapedOnly([])
  {}

  lemma EscapedConcat(a: string, b: string)
    requires EscapedOnly(a) && EscapedOnly(b)
    ensures EscapedOnly(a + b)
  {
    hide Unreserved, UpperHex;
    var s := a + b;
    forall i | 0 <= i < |s|
      ensures StandsOrEscapes(s, i)
    {
      if i < |a| {
        assert StandsOrEscapes(a, i);
        assert s[i] == a[i] && (i + 2 < |a| ==> s[i + 1] == a[i + 1] && s[i + 2] == a[i + 2]);
      } else {
        var j := i - |a|;
        assert StandsOrEscapes(b, j);
        assert s[i] == b[j] && (j + 2 < |b| ==> s[i + 1] == b[j + 1] && s[i + 2] == b[j + 2]);
      }
    }
  }

  lemma OneExactly(c: char)
    requires IsByte(c)
    ensures (Unreserved(c) ==> EncodeByte(c) == [c]) && EscapedOnly(EncodeByte(c))
  {
    KeptIsUnreserved(c);
    hide Kept;
    HexUpper(c as int / 16);
    HexUpper(c as int % 16);
  }

  lemma HexUpper(v: int)
    requires 0 <= v < 16
    ensures UpperHex(HEX[v]) && Unreserved(HEX[v])
  {}

  // ----- The query

  datatype Field = Field(name: string, value: string)

  function FieldText(f: Field): string
    requires Bytes(f.value)
  {
    f.name + "=" + Encode(f.value)
  }

  ghost predicate FieldsOk(fields: seq<Field>) {
    forall i :: 0 <= i < |fields| ==> Bytes(fields[i].value) && '=' !in fields[i].name && '&' !in fields[i].name
  }

  function Query(fields: seq<Field>): string
    requires FieldsOk(fields)
  {
    if fields == [] then [] else
      (if |fields| == 1 then [] else Query(fields[..|fields| - 1]) + "&") + FieldText(fields[|fields| - 1])
  }

  method SerializeQuery(fields: seq<Field>) returns (query: string)
    requires FieldsOk(fields)
    ensures query == Query(fields)
  {
    hide Encode;
    query := "";
    for index := 0 to |fields|
      invariant query == Query(fields[..index])
    {
      assert fields[..index + 1][..index] == fields[..index];
      if index != 0 {
        query := query + "&";
      }
      var encoded := EncodeURIComponent(fields[index].value);
      query := query + fields[index].name + "=" + encoded;
      QueryNext(fields, index, query);
    }
    assert fields[..|fields|] == fields;
  }

  lemma QueryNext(fields: seq<Field>, index: nat, query: string)
    requires FieldsOk(fields) && index < |fields|
    requires query == Query(fields[..index]) + (if index != 0 then "&" else "") + fields[index].name + "=" + Encode(fields[index].value)
    ensures query == Query(fields[..index + 1])
  {
    hide Encode;
    assert fields[..index + 1][..index] == fields[..index];
    var before, name, value := Query(fields[..index]) + (if index != 0 then "&" else ""), fields[index].name, Encode(fields[index].value);
    SeqAssociative(before + name, "=", value);
    SeqAssociative(before, name, "=" + value);
    SeqAssociative(name, "=", value);
    if index == 0 {
      assert before == [];
    }
  }

  /** The first occurrence of a character from `from` on, or the end. */
  function IndexOf(s: string, c: char, from: nat): (i: nat)
    requires from <= |s|
    ensures from <= i <= |s|
    ensures forall k :: from <= k < i ==> s[k] != c
    ensures i < |s| ==> s[i] == c
    decreases |s| - from
  {
    if from == |s| || s[from] == c then from else IndexOf(s, c, from + 1)
  }

  function Pieces(s: string, c: char): seq<string>
    decreases |s|
  {
    var i := IndexOf(s, c, 0);
    if i == |s| then [s] else [s[..i]] + Pieces(s[i + 1..], c)
  }

  /** Cut at the first `=`, the value decoded. */
  function ParseField(piece: string): Option<Field> {
    var i := IndexOf(piece, '=', 0);
    if i == |piece| then None
    else
      match Decode(piece[i + 1..])
      case None => None
      case Some(value) => Some(Field(piece[..i], value))
  }

  function ParseFields(pieces: seq<string>): Option<seq<Field>> {
    if pieces == [] then Some([])
    else
      match (ParseField(pieces[0]), ParseFields(pieces[1..]))
      case (Some(f), Some(rest)) => Some([f] + rest)
      case _ => None
  }

  lemma IndexIs(s: string, c: char, k: nat)
    requires k <= |s| && (k < |s| ==> s[k] == c) && forall j :: 0 <= j < k ==> s[j] != c
    ensures IndexOf(s, c, 0) == k
  {}

  lemma FieldPiece(f: Field)
    requires Bytes(f.value) && '=' !in f.name && '&' !in f.name
    ensures ParseField(FieldText(f)) == Some(f) && '&' !in FieldText(f)
  {
    hide Encode, IndexOf, Decode;
    var piece, encoded := FieldText(f), Encode(f.value);
    EncodedCharacters(f.value);
    forall k | 0 <= k < |piece|
      ensures piece[k] != '&' && (k < |f.name| ==> piece[k] != '=')
    {
      if k < |f.name| {
        assert piece[k] == f.name[k];
      } else if k > |f.name| {
        assert piece[k] == encoded[k - |f.name| - 1];
      }
    }
    assert piece[|f.name|] == '=';
    IndexIs(piece, '=', |f.name|);
    assert piece[..|f.name|] == f.name && piece[|f.name| + 1..] == encoded;
    DecodeEncoded(f.value);
  }

  function Texts(fields: seq<Field>): seq<string>
    requires FieldsOk(fields)
  {
    seq(|fields|, i requires 0 <= i < |fields| => FieldText(fields[i]))
  }

  lemma {:induction false} QueryFirst(fields: seq<Field>)
    requires FieldsOk(fields) && |fields| > 1
    ensures Query(fields) == FieldText(fields[0]) + "&" + Query(fields[1..])
  {
    hide FieldText;
    var n := |fields| - 1;
    var last := FieldText(fields[n]);
    if n == 1 {
      assert fields[..1] == [fields[0]] && fields[1..] == [fields[1]];
      assert Query(fields[..1]) == [] + FieldText(fields[0]);
      assert Query(fields[1..]) == [] + last;
    } else {
      QueryFirst(fields[..n]);
      var first, middle := FieldText(fields[0]), Query(fields[1..][..n - 1]);
      assert fields[..n][1..] == fields[1..][..n - 1];
      assert Query(fields[1..]) == middle + "&" + last;
      assert first + "&" + middle + "&" + last == first + "&" + (middle + "&" + last);
    }
  }

  lemma PiecesFirst(a: string, b: string, c: char)
    requires c !in a
    ensures Pieces(a, c) == [a]
    ensures Pieces(a + [c] + b, c) == [a] + Pieces(b, c)
  {
    hide IndexOf;
    var s := a + [c] + b;
    forall j | 0 <= j < |a|
      ensures a[j] != c && s[j] == a[j]
    {}
    IndexIs(a, c, |a|);
    IndexIs(s, c, |a|);
    assert s[..|a|] == a && s[|a| + 1..] == b;
  }

  lemma {:induction false} QueryPieces(fields: seq<Field>)
    requires FieldsOk(fields) && fields != []
    ensures Pieces(Query(fields), '&') == Texts(fields)
    decreases |fields|
  {
    hide FieldText, IndexOf, Pieces;
    var first := FieldText(fields[0]);
    FieldPiece(fields[0]);
    if |fields| == 1 {
      assert Query(fields) == [] + first == first;
      PiecesFirst(first, [], '&');
      assert Texts(fields) == [first];
    } else {
      hide Query;
      QueryFirst(fields);
      QueryPieces(fields[1..]);
      assert first + "&" + Query(fields[1..]) == first + ['&'] + Query(fields[1..]);
      PiecesFirst(first, Query(fields[1..]), '&');
      assert Texts(fields) == [first] + Texts(fields[1..]);
    }
  }

  lemma {:induction false} TextsParse(fields: seq<Field>)
    requires FieldsOk(fields)
    ensures ParseFields(Texts(fields)) == Some(fields)
  {
    hide FieldText, ParseField;
    if fields != [] {
      FieldPiece(fields[0]);
      TextsParse(fields[1..]);
      assert Texts(fields)[1..] == Texts(fields[1..]);
      assert [fields[0]] + fields[1..] == fields;
    }
  }

  /** Splitting the query at `&` and at each first `=` and decoding gives the fields back. */
  lemma QueryRoundTrip(fields: seq<Field>)
    requires FieldsOk(fields) && fields != []
    ensures ParseFields(Pieces(Query(fields), '&')) == Some(fields)
  {
    hide Query, Pieces, Texts, ParseFields;
    QueryPieces(fields);
    TextsParse(fields);
  }

  // ----- The check on escapes

  predicate WellEscaped(s: string) { forall i :: 0 <= i < |s| && s[i] == '%' ==> EscapeAt(s, i) }

  const USERS := "/api/v1/users/"

  /** Where a text first occurs, or none. */
  function Find(s: string, text: string, from: nat): (at: Option<nat>)
    requires from <= |s|
    ensures at.Some? ==> from <= at.value && at.value + |text| <= |s|
    decreases |s| - from
  {
    if from + |text| > |s| then None
    else if s[from..from + |text|] == text then Some(from)
    else if from == |s| then None
    else Find(s, text, from + 1)
  }

  /** The request target's path behind the users prefix. */
  function Segment(target: string): Option<string> {
    var path := target[..IndexOf(target, '?', 0)];
    match Find(path, USERS, 0)
    case None => None
    case Some(at) => Some(path[at + |USERS|..])
  }

  predicate OccursAt(s: string, text: string, k: nat) { k + |text| <= |s| && s[k..k + |text|] == text }

  /** The first occurrence, if there is any. */
  lemma {:induction false} FindIs(s: string, text: string, from: nat)
    requires from <= |s|
    ensures match Find(s, text, from)
            case None => forall k: nat :: from <= k ==> !OccursAt(s, text, k)
            case Some(at) => OccursAt(s, text, at) && forall k: nat :: from <= k < at ==> !OccursAt(s, text, k)
    decreases |s| - from
  {
    if from + |text| <= |s| && !OccursAt(s, text, from) && from < |s| {
      FindIs(s, text, from + 1);
    }
  }

  /** What stands before the first question mark. */
  predicate PathOf(target: string, path: string) {
    path <= target && '?' !in path && (|path| < |target| ==> target[|path|] == '?')
  }

  /** What is checked is what stands behind the first `/api/v1/users/` of the path. */
  lemma SegmentIs(target: string, path: string)
    requires PathOf(target, path)
    ensures match Segment(target)
            case None => forall k: nat :: !OccursAt(path, "/api/v1/users/", k)
            case Some(segment) =>
              exists at: nat :: OccursAt(path, "/api/v1/users/", at) && segment == path[at + 14..]
                && forall k: nat :: k < at ==> !OccursAt(path, "/api/v1/users/", k)
  {
    hide Find, OccursAt;
    var i := IndexOf(target, '?', 0);
    assert path == target[..i] by { OnePath(target, path, i); }
    FindIs(path, USERS, 0);
  }

  lemma OnePath(target: string, path: string, i: nat)
    requires PathOf(target, path) && i == IndexOf(target, '?', 0)
    ensures path == target[..i]
  {
    assert path == target[..|path|];
    assert forall k :: 0 <= k < |path| ==> target[k] == path[k] && target[k] != '?';
  }

  /** The scan of one segment, skipping each escape it accepts. */
  method MalformedEscape(segment: string) returns (malformed: bool)
    ensures malformed <==> !WellEscaped(segment)
  {
    var index := 0;
    while index < |segment|
      invariant index <= |segment|
      invariant forall i :: 0 <= i < index && segment[i] == '%' ==> EscapeAt(segment, i)
    {
      if segment[index] != '%' {
        index := index + 1;
        continue;
      }
      if index + 2 >= |segment| || !IsHex(segment[index + 1]) || !IsHex(segment[index + 2]) {
        assert !EscapeAt(segment, index);
        return true;
      }
      index := index + 3;
    }
    return false;
  }

  /** Only what stands behind the users prefix, up to the query, is looked at. */
  method MalformedUserEmailEscape(target: string) returns (malformed: bool)
    ensures malformed <==> Segment(target).Some? && !WellEscaped(Segment(target).value)
  {
    hide Find, IndexOf, WellEscaped;
    var segment := Segment(target);
    if segment.None? {
      return false;
    }
    malformed := MalformedEscape(segment.value);
  }

  /** Digits of either case, and their values. */
  lemma HexReads(c: char, v: nat)
    requires v < 16
    ensures IsHex(c) && HexValue(c) == v <==>
            (v < 10 && c as int == 48 + v) || (v >= 10 && (c as int == 65 + v - 10 || c as int == 97 + v - 10))
  {}

  /** A digit, by its code. */
  predicate HexDigit(c: char) { 48 <= c as int <= 57 || 65 <= c as int <= 70 || 97 <= c as int <= 102 }

  /** A text passes if and only if two hexadecimal digits follow every percent sign. */
  lemma WellEscapedExactly(s: string)
    ensures WellEscaped(s) <==>
            forall i :: 0 <= i < |s| && s[i] == '%' ==> i + 2 < |s| && HexDigit(s[i + 1]) && HexDigit(s[i + 2])
  {
    forall c
      ensures IsHex(c) <==> HexDigit(c)
    {}
    if WellEscaped(s) {
      forall i | 0 <= i < |s| && s[i] == '%'
        ensures i + 2 < |s| && HexDigit(s[i + 1]) && HexDigit(s[i + 2])
      {
        assert EscapeAt(s, i);
      }
    }
  }

  /** The check accepts exactly what can be decoded. */
  lemma {:induction false} AcceptedIsDecodable(s: string)
    ensures WellEscaped(s) <==> Decode(s).Some?
    decreases |s|
  {
    if s == [] {
    } else if s[0] != '%' {
      AcceptedIsDecodable(s[1..]);
      EscapesBehind(s, 1);
    } else if EscapeAt(s, 0) {
      AcceptedIsDecodable(s[3..]);
      EscapesBehind(s, 3);
    } else {
      assert s[0] == '%';
    }
  }

  lemma EscapesBehind(s: string, n: nat)
    requires n <= |s| && (forall i :: 1 <= i < n ==> s[i] != '%') && (n > 0 ==> s[0] == '%' ==> EscapeAt(s, 0))
    ensures WellEscaped(s) <==> WellEscaped(s[n..])
  {
    var rest := s[n..];
    forall i | 0 <= i < |rest|
      ensures rest[i] == s[i + n] && (EscapeAt(rest, i) <==> EscapeAt(s, i + n))
    {}
    if WellEscaped(rest) {
      forall i | 0 <= i < |s| && s[i] == '%'
        ensures EscapeAt(s, i)
      {
        if i >= n {
          assert rest[i - n] == '%';
        }
      }
    }
  }

  /** Whatever was encoded passes the check. */
  lemma EncodedIsAccepted(value: string)
    requires Bytes(value)
    ensures WellEscaped(Encode(value))
  {
    DecodeEncoded(value);
    AcceptedIsDecodable(Encode(value));
  }
}
