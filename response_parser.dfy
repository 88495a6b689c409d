/** The response parser (ai_scraper.py lines 69-79): the classifier's payload
    is freed of markdown code fences and surrounding whitespace, decoded, and
    its `products` field rendered as one display string. The JSON decoder is
    the parameter `decode` of the per-URL pipeline; this module fixes what it
    may answer and what is done with the answer. */
module ResponseParser {
  import opened Wrappers
  import opened PyStr

  const FenceJson: string := "```json"
  const Fence: string := "```"

  // ---------------------------------------------------------------------------
  // Code-fence stripping (line 69)

  predicate NoTicks(s: string)
  {
    forall i :: 0 <= i < |s| ==> s[i] != '`'
  }

  /** `s` has no three backticks in a row, so neither fence string occurs in it. */
  predicate NoFence(s: string)
  {
    forall i :: 0 <= i < |s| - 2 ==> !(s[i] == '`' && s[i + 1] == '`' && s[i + 2] == '`')
  }

  /** `raw.replace("```json", "").replace("```", "").strip()` */
  function StripFences(raw: string): (r: string)
    ensures NoFence(r)
    ensures Unpadded(r)
    ensures |r| <= |raw|
  {
    var unfenced := RemoveAll(RemoveAll(raw, FenceJson), Fence);
    RemoveFenceLeavesNone(RemoveAll(raw, FenceJson));
    StripKeepsNoFence(unfenced);
    Strip(unfenced)
  }

  /** `strip()` cuts a piece out of its input, so it adds no fence. */
  lemma StripKeepsNoFence(s: string)
    requires NoFence(s)
    ensures NoFence(Strip(s))
  {
    var lead, trail := StripSplit(s);
    NoFenceInfix(lead, Strip(s), trail);
  }

  function LeadingTicks(s: string): nat
  {
    if s != [] && s[0] == '`' then 1 + LeadingTicks(s[1..]) else 0
  }

  lemma LeadingTicksCons(c: char, s: string)
    ensures LeadingTicks([c] + s) == if c == '`' then 1 + LeadingTicks(s) else 0
  {
    assert ([c] + s)[1..] == s;
  }

  /** Removing fences from a string that starts with fewer than three
      backticks keeps those backticks at its start. */
  lemma {:induction false} RemoveFenceKeepsLead(t: string)
    requires LeadingTicks(t) < 3
    ensures LeadingTicks(RemoveAll(t, Fence)) == LeadingTicks(t)
    decreases |t|
  {
    if |t| >= 3 {
      assert t[..3] != Fence by {
        if t[..3] == Fence {
          assert t[0] == '`' && t[1] == '`' && t[2] == '`';
          assert LeadingTicks(t[1..]) == 1 + LeadingTicks(t[2..]);
        }
      }
      var x := RemoveAll(t[1..], Fence);
      assert RemoveAll(t, Fence) == [t[0]] + x;
      LeadingTicksCons(t[0], x);
      if t[0] == '`' {
        RemoveFenceKeepsLead(t[1..]);
      }
    }
  }

  /** After `replace("```", "")` no three backticks remain in a row: removal
      never joins leftover backticks into a new fence. */
  lemma {:induction false} RemoveFenceLeavesNone(s: string)
    ensures NoFence(RemoveAll(s, Fence))
    decreases |s|
  {
    if |s| >= 3 {
      if s[..3] == Fence {
        RemoveFenceLeavesNone(s[3..]);
      } else {
        var x := RemoveAll(s[1..], Fence);
        var r := [s[0]] + x;
        assert RemoveAll(s, Fence) == r;
        RemoveFenceLeavesNone(s[1..]);
        if s[0] == '`' && |x| >= 2 {
          assert LeadingTicks(s[1..]) < 2 by {
            if s[1] == '`' {
              assert s[2] != '`';
              assert LeadingTicks(s[2..]) == 0;
            }
          }
          RemoveFenceKeepsLead(s[1..]);
          if x[0] == '`' {
            assert LeadingTicks(x) == 1 + LeadingTicks(x[1..]);
          }
        }
        forall i | 0 <= i < |r| - 2
          ensures !(r[i] == '`' && r[i + 1] == '`' && r[i + 2] == '`')
        {
          if i > 0 {
            assert r[i] == x[i - 1] && r[i + 1] == x[i] && r[i + 2] == x[i + 1];
          }
        }
      }
    }
  }

  lemma NoFenceInfix(a: string, b: string, c: string)
    requires NoFence(a + b + c)
    ensures NoFence(b)
  {
    var s := a + b + c;
    forall i | 0 <= i < |b| - 2
      ensures !(b[i] == '`' && b[i + 1] == '`' && b[i + 2] == '`')
    {
      assert s[|a| + i] == b[i] && s[|a| + i + 1] == b[i + 1] && s[|a| + i + 2] == b[i + 2];
    }
  }

  /** Text without backticks passes through the removal of a backtick pattern. */
  lemma {:induction false} RemoveAllTickFree(t: string, u: string, pat: string)
    requires pat != [] && pat[0] == '`' && NoTicks(t)
    ensures RemoveAll(t + u, pat) == t + RemoveAll(u, pat)
    decreases |t|
  {
    if t == [] {
      assert t + u == u;
    } else if |t + u| >= |pat| {
      assert (t + u)[0] == t[0];
      assert (t + u)[1..] == t[1..] + u;
      RemoveAllTickFree(t[1..], u, pat);
    } else {
      assert RemoveAll(u, pat) == u;
    }
  }

  /** `pat` occurs in `s` at index `i`. */
  predicate OccursAt(s: string, pat: string, i: int)
  {
    0 <= i && i + |pat| <= |s| && s[i..i + |pat|] == pat
  }

  /** `replace(pat, "")` leaves a string in which `pat` does not occur as it is. */
  lemma {:induction false} RemoveAllAbsent(s: string, pat: string)
    requires pat != []
    requires forall i :: !OccursAt(s, pat, i)
    ensures RemoveAll(s, pat) == s
    decreases |s|
  {
    if |s| >= |pat| {
      assert !OccursAt(s, pat, 0);
      forall i ensures !OccursAt(s[1..], pat, i) {
        if 0 <= i && i + |pat| <= |s[1..]| {
          assert s[1..][i..i + |pat|] == s[i + 1..i + 1 + |pat|];
          assert !OccursAt(s, pat, i + 1);
        }
      }
      RemoveAllAbsent(s[1..], pat);
    }
  }

  /** Removing a pattern that starts with a backtick leaves backtick-free text as it is. */
  lemma TickFreeUntouched(t: string, pat: string)
    requires pat != [] && pat[0] == '`' && NoTicks(t)
    ensures RemoveAll(t, pat) == t
  {
    forall i ensures !OccursAt(t, pat, i) {
      if 0 <= i && i + |pat| <= |t| {
        assert t[i..i + |pat|][0] == t[i];
      }
    }
    RemoveAllAbsent(t, pat);
  }

  /** The closing fence survives the removal of "```json" unless the text
      after it starts with "json". */
  lemma ClosingFenceKept(after: string)
    requires NoTicks(after) && (after == [] || after[0] != 'j')
    ensures RemoveAll(Fence + after, FenceJson) == Fence + after
  {
    var s := Fence + after;
    forall i ensures !OccursAt(s, FenceJson, i) {
      if 0 <= i && i + |FenceJson| <= |s| {
        var w := s[i..i + |FenceJson|];
        if i == 0 {
          assert w[3] == after[0] && FenceJson[3] == 'j';
          assert w[3] != FenceJson[3];
        } else {
          assert w[2] == after[i - 1] && FenceJson[2] == '`';
          assert w[2] != FenceJson[2];
        }
        assert w != FenceJson;
      }
    }
    RemoveAllAbsent(s, FenceJson);
  }

  /** `replace("```json", "")` on a fenced payload removes the opening fence only. */
  lemma FirstPass(before: string, body: string, after: string)
    requires NoTicks(before) && NoTicks(body) && NoTicks(after)
    requires after == [] || after[0] != 'j'
    ensures RemoveAll(before + FenceJson + body + Fence + after, FenceJson) == before + body + Fence + after
  {
    var tail := body + (Fence + after);
    Regroup(before, FenceJson, body, Fence, after);
    OpeningFenceRemoved(before, tail);
    RemoveAllTickFree(body, Fence + after, FenceJson);
    ClosingFenceKept(after);
    Regroup4(before, body, Fence, after);
  }

  lemma Regroup(a: string, b: string, c: string, d: string, e: string)
    ensures a + b + c + d + e == a + b + (c + (d + e))
  {
  }

  lemma Regroup4(a: string, b: string, c: string, d: string)
    ensures a + (b + (c + d)) == a + b + c + d
  {
  }

  lemma OpeningFenceRemoved(before: string, tail: string)
    requires NoTicks(before)
    ensures RemoveAll(before + FenceJson + tail, FenceJson) == before + RemoveAll(tail, FenceJson)
  {
    var rest := FenceJson + tail;
    assert before + FenceJson + tail == before + rest;
    RemoveAllTickFree(before, rest, FenceJson);
    RemoveAtFront(FenceJson, tail);
  }

  lemma RemoveAtFront(pat: string, u: string)
    requires pat != []
    ensures RemoveAll(pat + u, pat) == RemoveAll(u, pat)
  {
    assert (pat + u)[..|pat|] == pat;
    assert (pat + u)[|pat|..] == u;
  }

  /** `replace("```", "")` then removes the closing fence. */
  lemma SecondPass(before: string, body: string, after: string)
    requires NoTicks(before) && NoTicks(body) && NoTicks(after)
    ensures RemoveAll(before + body + Fence + after, Fence) == before + body + after
  {
    var front := before + body;
    assert NoTicks(front);
    assert before + body + Fence + after == front + (Fence + after);
    RemoveAllTickFree(front, Fence + after, Fence);
    RemoveAtFront(Fence, after);
    TickFreeUntouched(after, Fence);
  }

  /** A payload wrapped as "```json" + body + "```", possibly with text before
      and after, is read exactly as the same payload without the fences. The
      text after the closing fence must not start with "json": the two would
      form a second "```json". */
  lemma FencedPayload(before: string, body: string, after: string)
    requires NoTicks(before) && NoTicks(body) && NoTicks(after)
    requires after == [] || after[0] != 'j'
    ensures StripFences(before + FenceJson + body + Fence + after) == StripFences(before + body + after)
  {
    var plain := before + body + after;
    assert NoTicks(plain);
    FirstPass(before, body, after);
    SecondPass(before, body, after);
    TickFreeUntouched(plain, FenceJson);
    TickFreeUntouched(plain, Fence);
  }

  /** The plain fenced answer "```json" + body + "```" is read as the body. */
  lemma FencedAlone(body: string)
    requires NoTicks(body)
    ensures StripFences(FenceJson + body + Fence) == StripFences(body)
  {
    FencedPayload([], body, []);
    assert [] + FenceJson + body + Fence + [] == FenceJson + body + Fence;
    assert [] + body + [] == body;
  }

  /** The common case: a fenced body with no backticks and no surrounding
      whitespace comes out exactly as the body. */
  lemma FencedBody(body: string)
    requires NoTicks(body) && Unpadded(body)
    ensures StripFences(FenceJson + body + Fence) == body
  {
    FencedPayload([], body, []);
    assert [] + FenceJson + body + Fence + [] == FenceJson + body + Fence;
    assert [] + body + [] == body;
    TickFreeUntouched(body, FenceJson);
    TickFreeUntouched(body, Fence);
    StripUnpadded(body);
  }

  // ---------------------------------------------------------------------------
  // Decoded payloads

  /** A value `json.loads` can produce. `Opaque` stands for a float or a
      nested object: only its `str()` form and its truth value matter here. */
  datatype Value =
    | Null
    | Bool(b: bool)
    | Int(i: int)
    | Str(s: string)
    | List(items: seq<Value>)
    | Opaque(form: string, truthy: bool)

  /** What `json.loads(clean_json)` does: raise `JSONDecodeError`, return
      something other than a dict, or return a dict. */
  datatype Decoded =
    | Malformed
    | NotAnObject
    | Object(fields: map<string, Value>)

  /** Python's `bool()` on the value kinds modelled here. */
  predicate Truthy(v: Value)
  {
    match v
    case Null => false
    case Bool(b) => b
    case Int(i) => i != 0
    case Str(s) => s != []
    case List(items) => items != []
    case Opaque(_, t) => t
  }

  /** `data.get(key, default)`. */
  function Get(fields: map<string, Value>, key: string, default: Value): (v: Value)
    ensures key in fields ==> v == fields[key]
    ensures key !in fields ==> v == default
  {
    if key in fields then fields[key] else default
  }

  /** `str(v)` for a value that is not a list. */
  function PyStrOf(v: Value): (r: string)
    requires !v.List?
    ensures v.Str? ==> r == v.s
  {
    match v
    case Null => "None"
    case Bool(b) => if b then "True" else "False"
    case Int(i) => IntToString(i)
    case Str(s) => s
    case Opaque(form, _) => form
  }

  predicate AllStrings(items: seq<Value>)
  {
    forall k :: 0 <= k < |items| ==> items[k].Str?
  }

  /** The strings held by a list of string values. */
  function Texts(items: seq<Value>): (ts: seq<string>)
    requires AllStrings(items)
    ensures |ts| == |items|
    ensures forall k :: 0 <= k < |items| ==> ts[k] == items[k].s
  {
    if items == [] then [] else [items[0].s] + Texts(items[1..])
  }

  /** Lines 75-79: a list is joined with ", ", anything else becomes its
      `str()` form; `None` when the join raises `TypeError` because an item
      is not a string. */
  function RenderProducts(v: Value): (r: Option<string>)
    ensures r == None <==> v.List? && !AllStrings(v.items)
    ensures !v.List? ==> r == Some(PyStrOf(v))
  {
    if v.List? then
      if AllStrings(v.items) then Some(Join(Texts(v.items), ", ")) else None
    else Some(PyStrOf(v))
  }

  /** A list of names renders as the names separated by ", ", every name kept
      in order: `["A", "B"]` gives "A, B" and `[]` gives "". */
  lemma {:induction false} RenderNames(names: seq<string>)
    ensures var r := RenderProducts(List(seq(|names|, k requires 0 <= k < |names| => Str(names[k]))));
            r == Some(Join(names, ", "))
            && |r.value| == TotalLength(names) + if names == [] then 0 else 2 * (|names| - 1)
  {
    var items := seq(|names|, k requires 0 <= k < |names| => Str(names[k]));
    assert Texts(items) == names;
    JoinLength(names, ", ");
  }

  lemma RenderExamples()
    ensures RenderProducts(List([Str("A"), Str("B")])) == Some("A, B")
    ensures RenderProducts(List([])) == Some("")
    ensures RenderProducts(Null) == Some("None")
    ensures RenderProducts(Str("None")) == Some("None")
    ensures RenderProducts(List([Str("A"), Int(1)])) == None
  {
    var ab := [Str("A"), Str("B")];
    assert AllStrings(ab);
    assert Texts(ab) == ["A", "B"];
    assert ["A", "B"][1..] == ["B"];
    assert Join(["A", "B"], ", ") == "A" + ", " + "B";
    assert "A" + ", " + "B" == "A, B";
    assert RenderProducts(List(ab)) == Some("A, B");
    var mixed := [Str("A"), Int(1)];
    assert !mixed[1].Str?;
  }
}
