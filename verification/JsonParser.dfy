/** The cursor parser and the buffer serializers, step by step, refining the
    functions of `Json`. */
module JsonParser {
  import opened Json
  import opened Wrappers

  /** The parser's state: the text, the cursor and the current nesting. */
  class Parser {
    const f: NumFormat
    const src: string
    var pos: nat
    var depth: nat

    constructor (f: NumFormat, src: string)
      ensures pos == 0 && depth == 0 && this.f == f && this.src == src
    {
      this.f, this.src, pos, depth := f, src, 0, 0;
    }

    /** The cursor and the nesting agree with what the parsing function returned. */
    ghost predicate Agrees<T>(r: Parsed<T>, got: Option<T>, depthBefore: nat)
      reads this
    {
      && pos <= |src|
      && (r.Ok? <==> got.Some?)
      && (r.Ok? ==> got == Some(r.value) && pos == r.pos && depth == depthBefore)
    }

    method Next() returns (c: Option<char>)
      requires pos <= |src|
      modifies this`pos
      ensures pos <= |src|
      ensures if old(pos) < |src| then c == Some(src[old(pos)]) && pos == old(pos) + 1 else c == None && pos == old(pos)
    {
      if pos < |src| {
        c := Some(src[pos]);
        pos := pos + 1;
      } else {
        c := None;
      }
    }

    method SkipSpace()
      requires pos <= |src|
      modifies this`pos
      ensures pos == SkipWs(src, old(pos))
    {
      while pos < |src| && IsJsonSpace(src[pos])
        invariant pos <= |src| && SkipWs(src, pos) == SkipWs(src, old(pos))
      {
        pos := pos + 1;
      }
    }

    method ReadHex4() returns (code: Option<nat>)
      requires pos <= |src|
      modifies this`pos
      ensures Agrees(Hex4(src, old(pos)), code, depth)
    {
      var n: nat := 0;
      for i := 0 to 4
        invariant pos == old(pos) + i <= |src|
        invariant Hex(src, old(pos), 4, 0) == Hex(src, pos, 4 - i, n)
      {
        var c := Next();
        if c.None? || HexValue(c.value) < 0 {
          return None;
        }
        n := n * 16 + HexValue(c.value);
      }
      code := Some(n);
    }

    /** The surrogate case: on a mismatch the cursor goes back to `save`. */
    method ReadUnicode() returns (ch: Option<char>)
      requires pos <= |src|
      modifies this`pos
      ensures Agrees(UnicodeEscape(src, old(pos)), ch, depth)
    {
      var hi := ReadHex4();
      if hi.None? {
        return None;
      }
      if 0xD800 <= hi.value <= 0xDBFF {
        var save := pos;
        var c := Next();
        if c == Some('\\') {
          c := Next();
          if c == Some('u') {
            var lo := ReadHex4();
            if lo.None? {
              return None;
            }
            if 0xDC00 <= lo.value <= 0xDFFF {
              return Some(CharOf(0x1_0000 + (hi.value - 0xD800) * 0x400 + (lo.value - 0xDC00)));
            }
          }
        }
        pos := save;
        return Some(REPLACEMENT);
      }
      ch := Some(CharOf(hi.value));
    }

    /** Escape-free runs are copied whole when an escape or the closing quote ends them. */
    method ReadString() returns (r: Option<string>)
      requires pos < |src|
      modifies this`pos
      ensures Agrees(StringBody(src, old(pos) + 1, ""), r, depth)
    {
      hide StringBody, UnicodeEscape, SimpleEscape;
      pos := pos + 1;
      var s := "";
      var run := pos;
      EmptyRun(src, s, pos);
      while true
        invariant 0 <= run <= pos <= |src|
        invariant StringBody(src, old(pos) + 1, "") == StringBody(src, pos, s + src[run..pos])
        decreases |src| - pos
      {
        StringTurn(src, pos, s + src[run..pos]);
        if pos == |src| {
          return None;
        }
        if src[pos] == '"' {
          s := s + src[run..pos];
          pos := pos + 1;
          return Some(s);
        }
        if src[pos] == '\\' {
          s := s + src[run..pos];
          pos := pos + 1;
          var e := Next();
          if e.None? {
            return None;
          }
          if e.value == 'u' {
            var ch := ReadUnicode();
            if ch.None? {
              return None;
            }
            s := s + [ch.value];
          } else {
            var ch := SimpleEscape(e.value);
            if ch.None? {
              return None;
            }
            s := s + [ch.value];
          }
          run := pos;
          EmptyRun(src, s, pos);
        } else {
          LongerRun(src, s, run, pos);
          pos := pos + 1;
        }
      }
    }

    method ReadNumber() returns (r: Option<Json>)
      requires pos < |src| && IsNumberChar(src[pos])
      modifies this`pos
      ensures pos == NumberEnd(src, old(pos) + 1)
      ensures r == match (f.parse)(src[old(pos)..pos]) case None => None case Some(id) => Some(Num(Finite(id)))
    {
      var start := pos;
      while pos < |src| && IsNumberChar(src[pos])
        invariant start <= pos <= |src| && NumberEnd(src, pos) == NumberEnd(src, start)
        invariant pos == start ==> IsNumberChar(src[pos])
      {
        pos := pos + 1;
      }
      var n := (f.parse)(src[start..pos]);
      r := if n.None? then None else Some(Num(Finite(n.value)));
    }

    method ReadLiteral(lit: string) returns (found: bool)
      requires pos <= |src|
      modifies this`pos
      ensures found <==> Literal(src, old(pos), lit)
      ensures pos == if found then old(pos) + |lit| else old(pos)
    {
      found := Literal(src, pos, lit);
      if found {
        pos := pos + |lit|;
      }
    }

    /** `value`: containers count against the nesting limit. */
    method ReadValue() returns (v: Option<Json>)
      requires pos <= |src|
      modifies this`pos, this`depth
      ensures Agrees(Value(f, src, old(pos), old(depth)), v, old(depth))
      decreases |src| - pos, 1
    {
      hide Array, Object, StringBody, SkipWs, Literal;
      SkipSpace();
      if pos == |src| {
        return None;
      }
      var c := src[pos];
      if c == '{' || c == '[' {
        depth := depth + 1;
        if depth > MAX_DEPTH {
          return None;
        }
        if c == '{' {
          v := ReadObject();
        } else {
          v := ReadArray();
        }
        depth := if depth > 0 then depth - 1 else 0;
      } else if c == '"' {
        var s := ReadString();
        v := if s.None? then None else Some(Str(s.value));
      } else if c == 't' || c == 'f' {
        var t := ReadLiteral("true");
        if t {
          return Some(Bool(true));
        }
        t := ReadLiteral("false");
        v := if t then Some(Bool(false)) else None;
      } else if c == 'n' {
        var t := ReadLiteral("null");
        v := if t then Some(Null) else None;
      } else if c == '-' || '0' <= c <= '9' {
        v := ReadNumber();
      } else {
        v := None;
      }
    }

    method ReadArray() returns (v: Option<Json>)
      requires pos < |src|
      modifies this`pos, this`depth
      ensures Agrees(Array(f, src, old(pos), old(depth)), v, old(depth))
      decreases |src| - pos, 0
    {
      hide Value, SkipWs;
      pos := pos + 1;
      SkipSpace();
      if At(src, pos, ']') {
        pos := pos + 1;
        return Some(Arr([]));
      }
      var a: seq<Json> := [];
      ghost var target := Elements(f, src, pos, depth, []);
      while true
        invariant old(pos) < pos <= |src| && depth == old(depth)
        invariant Elements(f, src, pos, depth, a) == target
        decreases |src| - pos
      {
        var x := ReadValue();
        if x.None? {
          return None;
        }
        a := a + [x.value];
        SkipSpace();
        var c := Next();
        if c == Some(']') {
          return Some(Arr(a));
        }
        if c != Some(',') {
          return None;
        }
      }
    }

    method ReadMember() returns (m: Option<Field>)
      requires pos <= |src|
      modifies this`pos, this`depth
      ensures Agrees(Member(f, src, old(pos), old(depth)), m, old(depth))
      decreases |src| - pos, 2
    {
      hide StringBody, Value, SkipWs;
      SkipSpace();
      if !At(src, pos, '"') {
        return None;
      }
      var key := ReadString();
      if key.None? {
        return None;
      }
      SkipSpace();
      var c := Next();
      if c != Some(':') {
        return None;
      }
      var x := ReadValue();
      m := if x.None? then None else Some(Field(key.value, x.value));
    }

    method ReadObject() returns (v: Option<Json>)
      requires pos < |src|
      modifies this`pos, this`depth
      ensures Agrees(Object(f, src, old(pos), old(depth)), v, old(depth))
      decreases |src| - pos, 0
    {
      hide Member, SkipWs, Insert;
      pos := pos + 1;
      SkipSpace();
      if At(src, pos, '}') {
        pos := pos + 1;
        return Some(Obj([]));
      }
      var m: seq<Field> := [];
      ghost var target := Pairs(f, src, pos, depth, []);
      while true
        invariant old(pos) < pos <= |src| && depth == old(depth)
        invariant Pairs(f, src, pos, depth, m) == target
        decreases |src| - pos
      {
        var x := ReadMember();
        if x.None? {
          return None;
        }
        m := Insert(m, x.value.key, x.value.value);
        SkipSpace();
        var c := Next();
        if c == Some('}') {
          return Some(Obj(m));
        }
        if c != Some(',') {
          return None;
        }
      }
    }
  }

  /** `Json::parse`. */
  method ParseText(f: NumFormat, src: string) returns (v: Option<Json>)
    ensures v == Parse(f, src)
  {
    var p := new Parser(f, src);
    p.SkipSpace();
    v := p.ReadValue();
    if v.Some? {
      p.SkipSpace();
      if p.pos != |src| {
        v := None;
      }
    }
  }

  // ---- serialization into a buffer ----

  class Buffer {
    var out: string

    constructor ()
      ensures out == ""
    {
      out := "";
    }

    /** `escape_into`: runs that need no escape are appended as whole slices. */
    method EscapeInto(s: string)
      modifies this
      ensures out == old(out) + Quoted(s)
    {
      hide Escape, EscapeChar, EscapedTo;
      out := out + "\"";
      ghost var before := out;
      var run := 0;
      EscapedNone(before, s);
      for i := 0 to |s|
        invariant 0 <= run <= i && EscapedTo(before, s, run, i, out)
      {
        EscapedMore(before, s, run, i, out);
        if EscapeChar(s[i]) != [s[i]] {
          out := out + s[run..i];
          out := out + EscapeChar(s[i]);
          run := i + 1;
        }
      }
      EscapedAll(before, s, run, out);
      out := out + s[run..];
      out := out + "\"";
    }

    method Push(s: string)
      modifies this
      ensures out == old(out) + s
    {
      out := out + s;
    }

    /** `write_to`; `d` is the nesting the text would be indented by, were it pretty. */
    method WriteTo(f: NumFormat, v: Json, ghost d: nat)
      modifies this
      ensures out == old(out) + Render(f, false, v, d)
      decreases v, 1
    {
      match v {
        case Null => Push("null");
        case Bool(b) => Push(if b then "true" else "false");
        case Num(n) => Push(if n.Finite? then (f.print_)(n.id) else "null");
        case Str(s) => EscapeInto(s);
        case Arr(a) => WriteArray(f, a, d);
        case Obj(m) => WriteObject(f, m, d);
      }
    }

    method WriteArray(f: NumFormat, a: seq<Json>, ghost d: nat)
      modifies this
      ensures out == old(out) + Render(f, false, Arr(a), d)
      decreases a, 0
    {
      hide Render, ItemsRest;
      CompactArray(f, a, d);
      Push("[");
      for i := 0 to |a|
        invariant out + ItemsRest(f, a, d, i) == old(out) + Render(f, false, Arr(a), d)
      {
        CompactItem(f, a, d, i);
        if i > 0 {
          Push(",");
        }
        WriteTo(f, a[i], d + 1);
      }
      Push("]");
      CompactItem(f, a, d, |a|);
    }

    method WriteObject(f: NumFormat, m: seq<Field>, ghost d: nat)
      modifies this
      ensures out == old(out) + Render(f, false, Obj(m), d)
      decreases m, 0
    {
      hide Render, MembersRest, Quoted;
      CompactObject(f, m, d);
      Push("{");
      for i := 0 to |m|
        invariant out + MembersRest(f, m, d, i) == old(out) + Render(f, false, Obj(m), d)
      {
        CompactMember(f, m, d, i);
        if i > 0 {
          Push(",");
        }
        EscapeInto(m[i].key);
        Push(":");
        WriteTo(f, m[i].value, d + 1);
      }
      Push("}");
      CompactMember(f, m, d, |m|);
    }

    /** `write_pretty`: scalars and empty containers as in the compact form. */
    method WritePretty(f: NumFormat, v: Json, depth: nat)
      modifies this
      ensures out == old(out) + Render(f, true, v, depth)
      decreases v, 1
    {
      if v.Arr? && v.a != [] {
        WritePrettyArray(f, v.a, depth);
      } else if v.Obj? && v.fields != [] {
        WritePrettyObject(f, v.fields, depth);
      } else {
        WriteTo(f, v, depth);
      }
    }

    method WritePrettyArray(f: NumFormat, a: seq<Json>, depth: nat)
      requires a != []
      modifies this
      ensures out == old(out) + Render(f, true, Arr(a), depth)
      decreases a, 0
    {
      hide Render, PrettyItemsRest, Pad;
      PrettyArray(f, a, depth);
      Push("[\n");
      for i := 0 to |a|
        invariant out + PrettyItemsRest(f, a, depth, i) == old(out) + Render(f, true, Arr(a), depth)
      {
        PrettyItem(f, a, depth, i);
        Push(Pad(depth + 1));
        WritePretty(f, a[i], depth + 1);
        if i + 1 < |a| {
          Push(",");
        }
        Push("\n");
      }
      PrettyItem(f, a, depth, |a|);
      Push(Pad(depth));
      Push("]");
    }

    method WritePrettyObject(f: NumFormat, m: seq<Field>, depth: nat)
      requires m != []
      modifies this
      ensures out == old(out) + Render(f, true, Obj(m), depth)
      decreases m, 0
    {
      hide Render, PrettyMembersRest, Pad, Quoted;
      PrettyObject(f, m, depth);
      Push("{\n");
      for i := 0 to |m|
        invariant out + PrettyMembersRest(f, m, depth, i) == old(out) + Render(f, true, Obj(m), depth)
      {
        PrettyMember(f, m, depth, i);
        ghost var before := out;
        Push(Pad(depth + 1));
        EscapeInto(m[i].key);
        Push(": ");
        WritePretty(f, m[i].value, depth + 1);
        MemberWritten(before, Pad(depth + 1), Quoted(m[i].key), Render(f, true, m[i].value, depth + 1));
        if i + 1 < |m| {
          Push(",");
        }
        Push("\n");
        LineWritten(before, Pad(depth + 1) + PrettyMemberText(f, m[i], depth), if i + 1 < |m| then "," else "",
                    PrettyMembersRest(f, m, depth, i + 1));
      }
      PrettyMember(f, m, depth, |m|);
      Push(Pad(depth));
      Push("}");
    }
  }

  // ---- what the loops still have to write ----

  ghost function ItemsRest(f: NumFormat, a: seq<Json>, d: nat, i: nat): string
    requires i <= |a|
  {
    if i == |a| then "]" else (if i > 0 then "," else "") + Items(f, false, a[i..], d) + "]"
  }

  lemma CompactArray(f: NumFormat, a: seq<Json>, d: nat)
    ensures Render(f, false, Arr(a), d) == "[" + ItemsRest(f, a, d, 0)
  {
    assert a[0..] == a;
  }

  lemma CompactItem(f: NumFormat, a: seq<Json>, d: nat, i: nat)
    requires i <= |a|
    ensures i < |a| ==>
      ItemsRest(f, a, d, i) == (if i > 0 then "," else "") + Render(f, false, a[i], d + 1) + ItemsRest(f, a, d, i + 1)
    ensures i == |a| ==> ItemsRest(f, a, d, i) == "]"
  {
    if i < |a| {
      hide Render, Items;
      assert a[i..][1..] == a[i + 1..];
      var r, more := Render(f, false, a[i], d + 1), MoreItems(f, false, a[i..], d);
      assert ItemsRest(f, a, d, i + 1) == more + "]";
      CompactItemText(f, a[i..], d);
      ItemThenRest(if i > 0 then "," else "", r, more, "]");
    }
  }

  lemma CompactItemText(f: NumFormat, a: seq<Json>, d: nat)
    requires a != []
    ensures Items(f, false, a, d) == Render(f, false, a[0], d + 1) + MoreItems(f, false, a, d)
  {
    hide Render, MoreItems;
    assert "" + Render(f, false, a[0], d + 1) == Render(f, false, a[0], d + 1);
  }

  lemma ItemThenRest(p: string, r: string, more: string, close: string)
    ensures p + (r + more) + close == p + r + (more + close)
  {
  }

  ghost function MembersRest(f: NumFormat, m: seq<Field>, d: nat, i: nat): string
    requires i <= |m|
  {
    if i == |m| then "}" else (if i > 0 then "," else "") + Members(f, false, m[i..], d) + "}"
  }

  lemma CompactObject(f: NumFormat, m: seq<Field>, d: nat)
    ensures Render(f, false, Obj(m), d) == "{" + MembersRest(f, m, d, 0)
  {
    assert m[0..] == m;
  }

  lemma CompactMember(f: NumFormat, m: seq<Field>, d: nat, i: nat)
    requires i <= |m|
    ensures i < |m| ==>
      MembersRest(f, m, d, i)
      == (if i > 0 then "," else "") + Quoted(m[i].key) + ":" + Render(f, false, m[i].value, d + 1)
        + MembersRest(f, m, d, i + 1)
    ensures i == |m| ==> MembersRest(f, m, d, i) == "}"
  {
    if i < |m| {
      hide Render, Quoted, Members;
      assert m[i..][1..] == m[i + 1..];
      var more := MoreMembers(f, false, m[i..], d);
      assert MembersRest(f, m, d, i + 1) == more + "}";
      var member := Quoted(m[i].key) + ":" + Render(f, false, m[i].value, d + 1);
      CompactMemberText(f, m[i..], d);
      var p := if i > 0 then "," else "";
      ItemThenRest(p, member, more, "}");
      assert p + member == p + Quoted(m[i].key) + ":" + Render(f, false, m[i].value, d + 1);
    }
  }

  lemma CompactMemberText(f: NumFormat, m: seq<Field>, d: nat)
    requires m != []
    ensures Members(f, false, m, d)
      == (Quoted(m[0].key) + ":" + Render(f, false, m[0].value, d + 1)) + MoreMembers(f, false, m, d)
  {
    hide Render, MoreMembers, Quoted;
    assert "" + Quoted(m[0].key) == Quoted(m[0].key);
  }

  ghost function PrettyItemsRest(f: NumFormat, a: seq<Json>, d: nat, i: nat): string
    requires i <= |a|
  {
    if i == |a| then Pad(d) + "]"
    else (Pad(d + 1) + Render(f, true, a[i], d + 1) + MoreItems(f, true, a[i..], d)) + ("\n" + Pad(d) + "]")
  }

  lemma PrettyArray(f: NumFormat, a: seq<Json>, d: nat)
    requires a != []
    ensures Render(f, true, Arr(a), d) == "[\n" + PrettyItemsRest(f, a, d, 0)
  {
    hide Pad, Items, MoreItems;
    assert a[0..] == a;
    PrettyItemsText(f, a, d);
    OpenBracket("[", Pad(d + 1) + Render(f, true, a[0], d + 1) + MoreItems(f, true, a, d), Pad(d), "]");
  }

  lemma PrettyItemsText(f: NumFormat, a: seq<Json>, d: nat)
    requires a != []
    ensures Items(f, true, a, d) == "\n" + (Pad(d + 1) + Render(f, true, a[0], d + 1) + MoreItems(f, true, a, d))
  {
    hide Pad, Render, MoreItems;
  }

  lemma OpenBracket(open: string, text: string, pad: string, close: string)
    ensures open + ("\n" + text) + ("\n" + pad) + close == (open + "\n") + (text + ("\n" + pad + close))
  {
  }

  /** An item with its comma and line break, and what comes after it. */
  lemma NextLine(pad: string, r: string, more: string, rest: string, close: string)
    ensures (pad + r + ("," + ("\n" + more))) + close == pad + r + "," + "\n" + (more + close)
    ensures (pad + r + "") + ("\n" + rest) == pad + r + "" + "\n" + rest
  {
  }

  lemma PrettyItem(f: NumFormat, a: seq<Json>, d: nat, i: nat)
    requires i <= |a|
    ensures i < |a| ==>
      PrettyItemsRest(f, a, d, i)
      == Pad(d + 1) + Render(f, true, a[i], d + 1) + (if i + 1 < |a| then "," else "") + "\n"
        + PrettyItemsRest(f, a, d, i + 1)
    ensures i == |a| ==> PrettyItemsRest(f, a, d, i) == Pad(d) + "]"
  {
    if i < |a| {
      hide Render, Pad, Items;
      assert a[i..][1..] == a[i + 1..];
      var r, close := Render(f, true, a[i], d + 1), "\n" + Pad(d) + "]";
      if i + 1 < |a| {
        PrettyItemsText(f, a[i + 1..], d);
        NextLine(Pad(d + 1), r, Pad(d + 1) + Render(f, true, a[i + 1], d + 1)
          + MoreItems(f, true, a[i + 1..], d), "", close);
      } else {
        assert close == "\n" + (Pad(d) + "]");
        NextLine(Pad(d + 1), r, "", Pad(d) + "]", "");
      }
    }
  }

  ghost function PrettyMemberText(f: NumFormat, m: Field, d: nat): string {
    Quoted(m.key) + ": " + Render(f, true, m.value, d + 1)
  }

  ghost function PrettyMembersRest(f: NumFormat, m: seq<Field>, d: nat, i: nat): string
    requires i <= |m|
  {
    if i == |m| then Pad(d) + "}"
    else (Pad(d + 1) + PrettyMemberText(f, m[i], d) + MoreMembers(f, true, m[i..], d)) + ("\n" + Pad(d) + "}")
  }

  lemma PrettyObject(f: NumFormat, m: seq<Field>, d: nat)
    requires m != []
    ensures Render(f, true, Obj(m), d) == "{\n" + PrettyMembersRest(f, m, d, 0)
  {
    hide Pad, Members, MoreMembers, PrettyMemberText;
    assert m[0..] == m;
    PrettyMembersText(f, m, d);
    OpenBracket("{", Pad(d + 1) + PrettyMemberText(f, m[0], d) + MoreMembers(f, true, m, d), Pad(d), "}");
  }

  lemma PrettyMembersText(f: NumFormat, m: seq<Field>, d: nat)
    requires m != []
    ensures Members(f, true, m, d) == "\n" + (Pad(d + 1) + PrettyMemberText(f, m[0], d) + MoreMembers(f, true, m, d))
  {
    hide Pad, Render, MoreMembers, Quoted;
    MemberParts("\n", Pad(d + 1), Quoted(m[0].key), ": ", Render(f, true, m[0].value, d + 1),
      MoreMembers(f, true, m, d));
  }

  lemma PrettyMember(f: NumFormat, m: seq<Field>, d: nat, i: nat)
    requires i <= |m|
    ensures i < |m| ==>
      PrettyMembersRest(f, m, d, i)
      == Pad(d + 1) + PrettyMemberText(f, m[i], d) + (if i + 1 < |m| then "," else "") + "\n"
        + PrettyMembersRest(f, m, d, i + 1)
    ensures i == |m| ==> PrettyMembersRest(f, m, d, i) == Pad(d) + "}"
  {
    if i < |m| {
      hide Pad, Members, PrettyMemberText;
      assert m[i..][1..] == m[i + 1..];
      var r, close := PrettyMemberText(f, m[i], d), "\n" + Pad(d) + "}";
      if i + 1 < |m| {
        PrettyMembersText(f, m[i + 1..], d);
        NextLine(Pad(d + 1), r, Pad(d + 1) + PrettyMemberText(f, m[i + 1], d)
          + MoreMembers(f, true, m[i + 1..], d), "", close);
      } else {
        assert close == "\n" + (Pad(d) + "}");
        NextLine(Pad(d + 1), r, "", Pad(d) + "}", "");
      }
    }
  }

  lemma MemberParts(b: string, p: string, q: string, c: string, r: string, more: string)
    ensures (b + p) + q + c + r + more == b + (p + (q + c + r) + more)
  {
  }

  lemma MemberWritten(before: string, pad: string, key: string, value: string)
    ensures before + pad + key + ": " + value == before + (pad + (key + ": " + value))
  {
  }

  lemma LineWritten(before: string, text: string, comma: string, rest: string)
    ensures before + (text + comma + "\n" + rest) == before + text + comma + "\n" + rest
    ensures before + text + "" == before + text
  {
  }

  /** Everything before `run` has been written, and the run up to `i` is its own escape. */
  ghost predicate EscapedTo(before: string, s: string, run: nat, i: nat, out: string)
    requires run <= i <= |s|
  {
    out == before + Escape(s[..run]) && Escape(s[..i]) == Escape(s[..run]) + s[run..i]
  }

  lemma EscapedNone(before: string, s: string)
    ensures EscapedTo(before, s, 0, 0, before)
  {
    EscapeNothing();
    assert s[..0] == "" && s[0..0] == "" && before + "" == before;
    hide Escape;
  }

  lemma EscapedMore(before: string, s: string, run: nat, i: nat, out: string)
    requires run <= i < |s| && EscapedTo(before, s, run, i, out)
    ensures EscapeChar(s[i]) == [s[i]] ==> EscapedTo(before, s, run, i + 1, out)
    ensures EscapedTo(before, s, i + 1, i + 1, out + s[run..i] + EscapeChar(s[i]))
  {
    EscapeSnoc(s, i);
    Runs(s, run, i);
    hide Escape, EscapeChar;
    Flushed(before, Escape(s[..run]), s[run..i], EscapeChar(s[i]), Escape(s[..i + 1]));
  }

  lemma Flushed(before: string, done: string, text: string, e: string, all: string)
    requires all == (done + text) + e
    ensures before + done + text + e == before + all && all == done + (text + e)
  {
    assert before + done + text + e == before + (done + text + e);
  }

  lemma Runs(s: string, run: nat, i: nat)
    requires run <= i < |s|
    ensures s[run..i + 1] == s[run..i] + [s[i]] && s[i + 1..i + 1] == ""
    ensures Escape(s[..i + 1]) + "" == Escape(s[..i + 1])
  {
  }

  lemma EscapedAll(before: string, s: string, run: nat, out: string)
    requires run <= |s| && EscapedTo(before, s, run, |s|, out)
    ensures out + s[run..] == before + Escape(s)
  {
    hide Escape;
    assert s[..|s|] == s && s[run..|s|] == s[run..];
  }

  lemma EmptyRun(src: string, s: string, pos: nat)
    requires pos <= |src|
    ensures s + src[pos..pos] == s
  {
  }

  lemma LongerRun(src: string, s: string, run: nat, pos: nat)
    requires run <= pos < |src|
    ensures s + src[run..pos + 1] == s + src[run..pos] + [src[pos]]
  {
  }

  /** One turn of the string loop, by the character it stands before. */
  lemma StringTurn(src: string, pos: nat, acc: string)
    requires pos <= |src|
    ensures pos == |src| ==> StringBody(src, pos, acc) == Error
    ensures pos < |src| && src[pos] == '"' ==> StringBody(src, pos, acc) == Ok(acc, pos + 1)
    ensures pos < |src| && src[pos] != '"' && src[pos] != '\\' ==>
      StringBody(src, pos, acc) == StringBody(src, pos + 1, acc + [src[pos]])
    ensures pos < |src| && src[pos] == '\\' ==> StringBody(src, pos, acc) == StringEscape(src, pos, acc)
  {
    hide UnicodeEscape, SimpleEscape;
  }

  /** What a backslash at `pos` starts. */
  ghost function StringEscape(src: string, pos: nat, acc: string): Parsed<string>
    requires pos < |src|
  {
    if pos + 1 == |src| then Error
    else if src[pos + 1] == 'u' then
      match UnicodeEscape(src, pos + 2)
      case Error => Error
      case Ok(c, p) => StringBody(src, p, acc + [c])
    else
      match SimpleEscape(src[pos + 1])
      case None => Error
      case Some(c) => StringBody(src, pos + 2, acc + [c])
  }

  lemma EscapeNothing()
    ensures Escape("") == ""
  {
  }

  lemma {:induction false} EscapeSnoc(s: string, i: nat)
    requires i < |s|
    ensures Escape(s[..i + 1]) == Escape(s[..i]) + EscapeChar(s[i])
  {
    EscapeAppend(s[..i], [s[i]]);
    assert s[..i] + [s[i]] == s[..i + 1];
    assert Escape([s[i]]) == EscapeChar(s[i]) + Escape("");
  }

  lemma {:induction false} EscapeAppend(a: string, b: string)
    ensures Escape(a + b) == Escape(a) + Escape(b)
  {
    if a == "" {
      assert a + b == b;
    } else {
      assert (a + b)[1..] == a[1..] + b;
      EscapeAppend(a[1..], b);
    }
  }

}
