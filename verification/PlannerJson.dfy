/** `planner_json_utils`: parsing a planner's JSON array, or what is left of it when it was cut off. */
module PlannerJson {
  import opened Options
  import opened Strings
  import opened JsonText
  import opened JsonScan

  /** `json.loads`; None when it raises. */
  type Loads = string -> Option<Json>

  // ---------- what the loops compute ----------

  function Balanced(text: string, p: Pair): string {
    var start := Find(text, p.open);
    if start.None? then ""
    else
      var end := End(text[start.value..], Outside(0), p);
      if end.None? then "" else text[start.value..][..end.value]
  }

  /** The first object in the text, if it is complete and parses, and the text behind it. */
  datatype Found = Nothing | Item(item: Json, rest: string)

  function FirstObject(s: string, loads: Loads): (r: Found)
    ensures r.Item? ==> |r.rest| < |s|
  {
    var start := Find(s, '{');
    if start.None? then Nothing
    else
      var tail := s[start.value..];
      var end := End(tail, Outside(0), BRACES);
      if end.None? || loads(tail[..end.value]).None? then Nothing
      else Item(loads(tail[..end.value]).value, tail[end.value..])
  }

  /** The objects recovered from the text behind the cursor. */
  function Recovered(s: string, loads: Loads): seq<Json>
    decreases |s|
  {
    var first := FirstObject(s, loads);
    if first.Nothing? then []
    else
      var comma := Find(first.rest, ',');
      if comma.None? then [first.item]
      else [first.item] + Recovered(first.rest[comma.value + 1..], loads)
  }

  function RecoveredArray(text: string, loads: Loads): seq<Json> {
    var start := Find(text, '[');
    if start.None? then [] else Recovered(text[start.value..], loads)
  }

  // ---------- code fences ----------

  function Lower(c: char): char {
    if 'A' <= c <= 'Z' then (c as int + 32) as char else c
  }

  function SkipJsonTag(s: string): (r: string)
    ensures |r| <= |s|
  {
    if |s| >= 4 && [Lower(s[0]), Lower(s[1]), Lower(s[2]), Lower(s[3])] == "json" then s[4..] else s
  }

  predicate StartsWithFence(s: string) {
    |s| >= 3 && s[0] == '`' && s[1] == '`' && s[2] == '`'
  }

  /** Removes every "```", an optional "json" behind it and the blanks that follow. */
  function RemoveFences(s: string): string
    decreases |s|
  {
    if s == "" then ""
    else if StartsWithFence(s) then RemoveFences(TrimLeft(SkipJsonTag(s[3..]), IsSpace))
    else [s[0]] + RemoveFences(s[1..])
  }

  function StripJsonCodeFence(text: string): string {
    RemoveFences(Strip(text, IsSpace))
  }

  function ParsedArray(text: string, loads: Loads): seq<Json> {
    var cleaned := StripJsonCodeFence(text);
    var candidate := Balanced(cleaned, BRACKETS);
    if candidate != "" && loads(candidate).Some? && loads(candidate).value.Arr? then
      loads(candidate).value.items
    else RecoveredArray(cleaned, loads)
  }

  // ---------- the loops ----------

  /** The scan both extractors share: the end of the bracket that opens at `start`. */
  method FindEnd(text: string, start: nat, p: Pair) returns (end: nat)
    requires start <= |text|
    ensures var e := End(text[start..], Outside(0), p);
            if e.None? then end == 0 else end == start + e.value
  {
    var depth, inString, escape := 0, false, false;
    ghost var whole := End(text[start..], Outside(0), p);
    for idx := start to |text|
      invariant var e := End(text[idx..], Scan(depth, inString, escape), p);
                whole == if e.None? then None else Some(idx - start + e.value)
    {
      var ch := text[idx];
      assert text[idx..][0] == ch && text[idx..][1..] == text[idx + 1..];
      if inString {
        if escape {
          escape := false;
        } else if ch == '\\' {
          escape := true;
        } else if ch == '"' {
          inString := false;
        }
      } else if ch == '"' {
        inString := true;
      } else if ch == p.open {
        depth := depth + 1;
      } else if ch == p.close {
        depth := depth - 1;
        if depth == 0 {
          return idx + 1;
        }
      }
    }
    end := 0;
  }

  method ExtractBalanced(text: string, p: Pair) returns (r: string)
    ensures r == Balanced(text, p)
  {
    var start := Find(text, p.open);
    if start.None? {
      return "";
    }
    var end := FindEnd(text, start.value, p);
    r := if end == 0 then "" else text[start.value..end];
  }

  method ExtractPartialObject(text: string, start: nat) returns (obj: string, end: nat)
    requires start <= |text|
    ensures var e := End(text[start..], Outside(0), BRACES);
            if e.None? then obj == "" && end == start
            else obj == text[start..][..e.value] && end == start + e.value
  {
    end := FindEnd(text, start, BRACES);
    if end == 0 {
      return "", start;
    }
    obj := text[start..end];
  }

  /** Finds the next object behind the cursor. */
  method NextObject(text: string, cursor: nat, loads: Loads) returns (item: Option<Json>, end: nat)
    requires cursor <= |text|
    ensures var first := FirstObject(text[cursor..], loads);
            if first.Nothing? then item == None
            else item == Some(first.item) && cursor < end <= |text| && first.rest == text[end..]
  {
    var brace := Find(text[cursor..], '{');
    if brace.None? {
      return None, 0;
    }
    var start := cursor + brace.value;
    assert text[cursor..][brace.value..] == text[start..];
    var obj;
    obj, end := ExtractPartialObject(text, start);
    if obj == "" {
      return None, 0;
    }
    item := loads(obj);
    assert text[start..][end - start..] == text[end..];
  }

  /** One turn of the loop: the next object and the position behind the comma that follows it. */
  method Advance(text: string, cursor: nat, loads: Loads) returns (item: Option<Json>, next: Option<nat>)
    requires cursor <= |text|
    ensures item.None? ==> Recovered(text[cursor..], loads) == []
    ensures item.Some? && next.None? ==> Recovered(text[cursor..], loads) == [item.value]
    ensures item.Some? && next.Some? ==>
              && cursor < next.value <= |text|
              && Recovered(text[cursor..], loads) == [item.value] + Recovered(text[next.value..], loads)
  {
    hide FirstObject;
    var end;
    item, end := NextObject(text, cursor, loads);
    next := None;
    if item.Some? {
      var comma := Find(text[end..], ',');
      if comma.Some? {
        assert text[end..][comma.value + 1..] == text[end + comma.value + 1..];
        next := Some(end + comma.value + 1);
      }
    }
  }

  lemma RecoveredFromNothing(loads: Loads)
    ensures Recovered("", loads) == []
  {
  }

  method RecoverPartialArray(text: string, loads: Loads) returns (items: seq<Json>)
    ensures items == RecoveredArray(text, loads)
  {
    hide FirstObject, Recovered;
    var start := Find(text, '[');
    if start.None? {
      return [];
    }
    ghost var whole := Recovered(text[start.value..], loads);
    items := [];
    var cursor := start.value;
    while cursor < |text|
      invariant cursor <= |text|
      invariant items + Recovered(text[cursor..], loads) == whole
      decreases |text| - cursor
    {
      var item, next := Advance(text, cursor, loads);
      if item.None? {
        return;
      }
      ghost var before := items;
      items := items + [item.value];
      if next.None? {
        return;
      }
      cursor := next.value;
      assert before + ([item.value] + Recovered(text[cursor..], loads)) == items + Recovered(text[cursor..], loads);
    }
    RecoveredFromNothing(loads);
    assert text[cursor..] == "";
  }

  /** A candidate that parses starts with a bracket, so `json.loads` can only have made a list of it. */
  method ParseJsonArray(text: string, loads: Loads) returns (items: seq<Json>)
    ensures items == ParsedArray(text, loads)
  {
    var cleaned := StripJsonCodeFence(text);
    var candidate := ExtractBalanced(cleaned, BRACKETS);
    if candidate != "" {
      var parsed := loads(candidate);
      if parsed.Some? && parsed.value.Arr? {
        return parsed.value.items;
      }
    }
    items := RecoverPartialArray(cleaned, loads);
  }
}
