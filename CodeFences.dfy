/**
 * The removal of Markdown code fences around a model's JSON reply, as both
 * LLM routes do it: trim the reply; if it starts with ```` ```json ````, remove
 * every ```` ```json ```` and then every ```` ``` ```` (each with one optional
 * following line feed); else if it starts with ```` ``` ````, remove every
 * ```` ``` ````; otherwise leave it as it is.
 */
module CodeFences {
  import opened JsString

  const Fence: string := "```"
  const JsonFence: string := "```json"

  /**
   * `s.replace(/<marker>\n?/g, '')`: a left-to-right scan that drops each
   * occurrence of the marker together with a line feed right after it.
   */
  function RemoveAll(s: string, marker: string): (r: string)
    requires marker != []
    ensures |r| <= |s|
    decreases |s|
  {
    if s == [] then []
    else if StartsWith(s, marker) then
      var rest := s[|marker|..];
      if rest != [] && rest[0] == '\n' then RemoveAll(rest[1..], marker) else RemoveAll(rest, marker)
    else [s[0]] + RemoveAll(s[1..], marker)
  }

  /** The reply text handed to `JSON.parse`. */
  function Unfenced(text: string): string {
    var t := Trim(text);
    if StartsWith(t, JsonFence) then RemoveAll(RemoveAll(t, JsonFence), Fence)
    else if StartsWith(t, Fence) then RemoveAll(t, Fence)
    else t
  }

  /** The two fence-stripping branches, reassigning the reply text as the routes do. */
  method StripCodeFences(text: string) returns (jsonText: string)
    ensures jsonText == Unfenced(text)
  {
    jsonText := Trim(text);
    if StartsWith(jsonText, JsonFence) {
      jsonText := RemoveAll(jsonText, JsonFence);
      jsonText := RemoveAll(jsonText, Fence);
    } else if StartsWith(jsonText, Fence) {
      jsonText := RemoveAll(jsonText, Fence);
    }
  }

  /** Text without the marker passes through the removal unchanged. */
  lemma {:induction false} RemoveAllAbsent(s: string, marker: string)
    requires marker != [] && !Includes(s, marker)
    ensures RemoveAll(s, marker) == s
    decreases |s|
  {
    if s != [] {
      RemoveAllAbsent(s[1..], marker);
    }
  }

  /**
   * Text in front of the first occurrence of the marker is kept as it is:
   * the removal only ever drops occurrences of the marker (and the line feed
   * after each).
   */
  lemma {:induction false} RemoveAllKeepsPrefix(a: string, b: string, marker: string)
    requires marker != []
    requires forall k :: 0 <= k < |a| ==> !OccursAt(a + b, marker, k)
    ensures RemoveAll(a + b, marker) == a + RemoveAll(b, marker)
    decreases |a|
  {
    if a == [] {
      assert a + b == b;
    } else {
      var s := a + b;
      assert !OccursAt(s, marker, 0);
      assert !StartsWith(s, marker) by {
        if |marker| <= |s| {
          assert s[..|marker|] == s[0..0 + |marker|];
        }
      }
      assert s[1..] == a[1..] + b;
      forall k | 0 <= k < |a[1..]| ensures !OccursAt(a[1..] + b, marker, k) {
        assert !OccursAt(s, marker, k + 1);
        if k + |marker| <= |s[1..]| {
          assert s[1..][k..k + |marker|] == s[k + 1..k + 1 + |marker|];
        }
      }
      RemoveAllKeepsPrefix(a[1..], b, marker);
      assert RemoveAll(s, marker) == [s[0]] + RemoveAll(s[1..], marker);
      assert s[0] == a[0];
      assert a + RemoveAll(b, marker) == [a[0]] + (a[1..] + RemoveAll(b, marker));
    }
  }

  /** A body without a fence, followed by the closing fence on its own line, keeps the body and its line feed. */
  lemma ClosingFenceRemoved(body: string)
    requires !Includes(body, Fence)
    ensures RemoveAll(body + "\n```", Fence) == body + "\n"
  {
    var x := body + "\n";
    IncludesIff(body, Fence);
    forall k | 0 <= k < |x| ensures !OccursAt(x + Fence, Fence, k) {
      if k + 3 <= |body| {
        assert (x + Fence)[k..k + 3] == body[k..k + 3];
        assert !OccursAt(body, Fence, k);
      } else {
        assert (x + Fence)[k..k + 3][|body| - k] == '\n';
      }
    }
    RemoveAllKeepsPrefix(x, Fence, Fence);
    assert RemoveAll(Fence, Fence) == RemoveAll([], Fence);
    assert x + Fence == body + "\n```";
  }

  /**
   * A reply fenced as ```` ```json ```` … ```` ``` ```` whose body holds no
   * fence is parsed as that body, followed by the line feed before the
   * closing fence.
   */
  lemma UnfencedJsonBlock(body: string)
    requires !Includes(body, Fence)
    ensures Unfenced("```json\n" + body + "\n```") == body + "\n"
  {
    var t := "```json\n" + body + "\n```";
    var inner := body + "\n```";
    assert Trimmed(t);
    TrimOfTrimmed(t);
    assert StartsWith(t, JsonFence) by {
      assert t[..7] == JsonFence;
    }
    assert t[7..] == "\n" + inner;
    assert RemoveAll(t, JsonFence) == RemoveAll(inner, JsonFence);
    IncludesIff(body, Fence);
    forall k | 0 <= k < |inner| ensures !OccursAt(inner + [], JsonFence, k) {
      assert inner + [] == inner;
      if k + 7 <= |inner| {
        assert inner[k..k + 3] == body[k..k + 3];
        assert !OccursAt(body, Fence, k);
        assert inner[k..k + 7][..3] == inner[k..k + 3];
        assert JsonFence[..3] == Fence;
      }
    }
    RemoveAllKeepsPrefix(inner, [], JsonFence);
    assert inner + [] == inner;
    ClosingFenceRemoved(body);
  }

  /**
   * A reply fenced as ```` ``` ```` … ```` ``` ```` whose body holds no fence
   * is parsed as that body, followed by the line feed before the closing
   * fence.
   */
  lemma UnfencedPlainBlock(body: string)
    requires !Includes(body, Fence)
    ensures Unfenced("```\n" + body + "\n```") == body + "\n"
  {
    var t := "```\n" + body + "\n```";
    assert Trimmed(t);
    TrimOfTrimmed(t);
    assert t[3] == '\n' && JsonFence[3] == 'j';
    assert !StartsWith(t, JsonFence) by {
      assert t[..7][3] == '\n';
    }
    assert StartsWith(t, Fence) by {
      assert t[..3] == Fence;
    }
    assert t[3..] == "\n" + (body + "\n```");
    ClosingFenceRemoved(body);
  }

  /** A reply that does not start with a fence once trimmed is only trimmed. */
  lemma UnfencedPlain(text: string)
    requires !StartsWith(Trim(text), Fence)
    ensures Unfenced(text) == Trim(text)
  {
    JsonFenceIsFence(Trim(text));
  }

  lemma JsonFenceIsFence(t: string)
    ensures StartsWith(t, JsonFence) ==> StartsWith(t, Fence)
  {
    if StartsWith(t, JsonFence) {
      assert t[..3] == JsonFence[..3];
    }
  }

  /** The removal keeps a first character that is not a backtick. */
  lemma RemoveFenceKeepsHead(u: string)
    requires u != [] && u[0] != '`'
    ensures RemoveAll(u, Fence) != [] && RemoveAll(u, Fence)[0] == u[0]
  {
  }

  /** Output that starts with two backticks comes from input that does. */
  lemma RemoveFenceHead(t: string)
    requires !StartsWith(t, "``")
    ensures !StartsWith(RemoveAll(t, Fence), "``")
  {
    if t != [] && t[0] == '`' && |t| > 1 {
      assert t[1] != '`';
      assert !StartsWith(t, Fence);
      RemoveFenceKeepsHead(t[1..]);
      assert RemoveAll(t, Fence) == [t[0]] + RemoveAll(t[1..], Fence);
    }
  }

  /**
   * No fence survives the backtick pass, even though a global replace does
   * not rescan what it has kept.
   */
  lemma {:induction false} RemoveFenceLeavesNone(s: string)
    ensures !Includes(RemoveAll(s, Fence), Fence)
    decreases |s|
  {
    if s == [] {
    } else if StartsWith(s, Fence) {
      var rest := s[3..];
      if rest != [] && rest[0] == '\n' {
        RemoveFenceLeavesNone(rest[1..]);
      } else {
        RemoveFenceLeavesNone(rest);
      }
    } else {
      var tail := s[1..];
      var r := RemoveAll(tail, Fence);
      RemoveFenceLeavesNone(tail);
      assert RemoveAll(s, Fence) == [s[0]] + r;
      if s[0] == '`' {
        FenceAfterBacktick(s);
        RemoveFenceHead(tail);
      }
      NoFenceCons(s[0], r);
    }
  }

  lemma FenceAfterBacktick(s: string)
    requires s != [] && s[0] == '`'
    ensures StartsWith(s[1..], "``") ==> StartsWith(s, Fence)
  {
    if StartsWith(s[1..], "``") {
      assert s[..3] == [s[0]] + s[1..][..2];
    }
  }

  /** Prepending a character to fence-free text creates a fence only before two backticks. */
  lemma NoFenceCons(c: char, r: string)
    requires !Includes(r, Fence)
    requires c == '`' ==> !StartsWith(r, "``")
    ensures !Includes([c] + r, Fence)
  {
    var s := [c] + r;
    IncludesIff(s, Fence);
    IncludesIff(r, Fence);
    forall k | 0 <= k && k + 3 <= |s| ensures !OccursAt(s, Fence, k) {
      if k == 0 {
        var w := s[k..k + 3];
        assert w == [c] + r[..2] && w[0] == c && w[1..] == r[..2];
        assert Fence[0] == '`' && Fence[1..] == "``";
        if c == '`' {
          assert r[..2] != "``";
        }
      } else {
        assert s[k..k + 3] == r[k - 1..k + 2];
        assert !OccursAt(r, Fence, k - 1);
      }
    }
  }

  /** Whenever the trimmed reply starts with a fence, no fence is left in the text parsed. */
  lemma UnfencedHasNoFence(text: string)
    requires StartsWith(Trim(text), Fence)
    ensures !Includes(Unfenced(text), Fence)
  {
    var t := Trim(text);
    if StartsWith(t, JsonFence) {
      RemoveFenceLeavesNone(RemoveAll(t, JsonFence));
    } else {
      RemoveFenceLeavesNone(t);
    }
  }
}
