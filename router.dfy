/**
 * The voice command router: a transcript is trimmed and lower-cased, then
 * tested for substring containment against three phrase lists, checked in
 * the fixed order enable, stop, switch.
 */
module Router {
  import opened Wrappers

  datatype Command = EnableCam | StopCam | SwitchCamera

  const ENABLE_COMMANDS: seq<string> :=
    ["enable webcam", "on camera", "on", "turn on camera", "enable camera", "enable", "start", "start camera"]
  const STOP_COMMANDS: seq<string> :=
    ["stop webcam", "off camera", "off", "turn off camera", "stop", "disable", "disable camera", "stop camera", "turn off"]
  const SWITCH_COMMANDS: seq<string> :=
    ["switch webcam", "switch camera", "switch", "change camera", "change"]

  /**
   * The characters ECMAScript's `trim` removes: WhiteSpace (tab, vertical tab,
   * form feed, space, no-break space, byte order mark and the Zs category) and
   * LineTerminator (line feed, carriage return, line and paragraph separator).
   */
  predicate IsSpace(c: char) {
    || '\t' <= c <= '\r'
    || c == ' '
    || c == '\U{00A0}'
    || c == '\U{1680}'
    || '\U{2000}' <= c <= '\U{200A}'
    || c == '\U{2028}' || c == '\U{2029}'
    || c == '\U{202F}' || c == '\U{205F}'
    || c == '\U{3000}'
    || c == '\U{FEFF}'
  }

  /** Drops leading spaces: what is left is a suffix of `s` that does not start with a space. */
  function TrimStart(s: string): (r: string)
    ensures |r| <= |s| && r == s[|s| - |r|..]
    ensures r == [] || !IsSpace(r[0])
    ensures forall i :: 0 <= i < |s| - |r| ==> IsSpace(s[i])
    decreases |s|
  {
    if |s| > 0 && IsSpace(s[0]) then TrimStart(s[1..]) else s
  }

  /** Drops trailing spaces: what is left is a prefix of `s` that does not end with a space. */
  function TrimEnd(s: string): (r: string)
    ensures |r| <= |s| && r == s[..|r|]
    ensures r == [] || !IsSpace(r[|r| - 1])
    ensures forall i :: |r| <= i < |s| ==> IsSpace(s[i])
    decreases |s|
  {
    if |s| > 0 && IsSpace(s[|s| - 1]) then TrimEnd(s[..|s| - 1]) else s
  }

  /** `String.prototype.trim`. */
  function Trim(s: string): string {
    TrimEnd(TrimStart(s))
  }

  predicate IsUpper(c: char) {
    'A' <= c <= 'Z'
  }

  function LowerChar(c: char): (d: char)
    ensures !IsUpper(d)
    ensures IsUpper(c) ==> d as int == c as int + 32
    ensures !IsUpper(c) ==> d == c
  {
    if IsUpper(c) then (c as int + 32) as char else c
  }

  /** `String.prototype.toLowerCase`, on the ASCII letters. */
  function Lower(s: string): (r: string)
    ensures |r| == |s|
    ensures forall i :: 0 <= i < |s| ==> r[i] == LowerChar(s[i])
  {
    seq(|s|, i requires 0 <= i < |s| => LowerChar(s[i]))
  }

  /** The command text the router matches against. */
  function Normalize(transcript: string): string {
    Lower(Trim(transcript))
  }

  /** `s.includes(phrase)`, scanning from the left. */
  predicate Includes(s: string, phrase: string)
    decreases |s|
  {
    |phrase| <= |s| && (s[..|phrase|] == phrase || Includes(s[1..], phrase))
  }

  predicate OccursAt(s: string, phrase: string, i: int) {
    0 <= i && i + |phrase| <= |s| && s[i..i + |phrase|] == phrase
  }

  /** The scan finds `phrase` exactly when it occurs at some position of `s`. */
  lemma {:induction false} IncludesIff(s: string, phrase: string)
    ensures Includes(s, phrase) <==> exists i :: OccursAt(s, phrase, i)
    decreases |s|
  {
    if |phrase| <= |s| && s[..|phrase|] != phrase {
      IncludesIff(s[1..], phrase);
      if Includes(s[1..], phrase) {
        var i :| OccursAt(s[1..], phrase, i);
        assert OccursAt(s, phrase, i + 1);
      }
      if i :| OccursAt(s, phrase, i) {
        assert i != 0;
        assert OccursAt(s[1..], phrase, i - 1);
      }
    } else if |phrase| <= |s| {
      assert OccursAt(s, phrase, 0);
    }
  }

  /** `phrases.some(phrase => s.includes(phrase))`, trying the phrases in order. */
  predicate MatchesAny(s: string, phrases: seq<string>)
    decreases |phrases|
  {
    |phrases| > 0 && (Includes(s, phrases[0]) || MatchesAny(s, phrases[1..]))
  }

  /** A list matches exactly when one of its phrases is included. */
  lemma {:induction false} MatchesAnyIff(s: string, phrases: seq<string>)
    ensures MatchesAny(s, phrases) <==> exists k :: 0 <= k < |phrases| && Includes(s, phrases[k])
    decreases |phrases|
  {
    if |phrases| > 0 {
      MatchesAnyIff(s, phrases[1..]);
      if exists k :: 0 <= k < |phrases| && Includes(s, phrases[k]) {
        var k :| 0 <= k < |phrases| && Includes(s, phrases[k]);
        if k > 0 {
          assert phrases[1..][k - 1] == phrases[k];
        }
      }
      if exists k :: 0 <= k < |phrases| - 1 && Includes(s, phrases[1..][k]) {
        var k :| 0 <= k < |phrases| - 1 && Includes(s, phrases[1..][k]);
        assert phrases[1..][k] == phrases[k + 1];
      }
    }
  }

  /** The action a normalized command selects; enable is checked first, then stop, then switch. */
  function Classify(command: string): Option<Command> {
    if MatchesAny(command, ENABLE_COMMANDS) then Some(EnableCam)
    else if MatchesAny(command, STOP_COMMANDS) then Some(StopCam)
    else if MatchesAny(command, SWITCH_COMMANDS) then Some(SwitchCamera)
    else None
  }

  /** A command containing an enable phrase selects enable, whatever else it contains. */
  lemma ClassifyEnable(command: string, k: int)
    requires 0 <= k < |ENABLE_COMMANDS| && Includes(command, ENABLE_COMMANDS[k])
    ensures Classify(command) == Some(EnableCam)
  {
    MatchesAnyIff(command, ENABLE_COMMANDS);
  }

  /** A command containing a stop phrase selects enable or stop, never switch or nothing. */
  lemma ClassifyStop(command: string, k: int)
    requires 0 <= k < |STOP_COMMANDS| && Includes(command, STOP_COMMANDS[k])
    ensures Classify(command) == Some(EnableCam) || Classify(command) == Some(StopCam)
  {
    MatchesAnyIff(command, STOP_COMMANDS);
  }

  /** A command containing a switch phrase selects some action. */
  lemma ClassifySwitch(command: string, k: int)
    requires 0 <= k < |SWITCH_COMMANDS| && Includes(command, SWITCH_COMMANDS[k])
    ensures Classify(command).Some?
  {
    MatchesAnyIff(command, SWITCH_COMMANDS);
  }

  /**
   * The four outcomes of the router in terms of phrase containment: enable
   * when an enable phrase occurs; stop when a stop phrase but no enable
   * phrase occurs; switch when a switch phrase but neither of the others
   * occurs; nothing when no phrase of any list occurs.
   */
  lemma ClassifyIff(c: string)
    ensures Classify(c) == Some(EnableCam) <==>
      exists k :: 0 <= k < |ENABLE_COMMANDS| && Includes(c, ENABLE_COMMANDS[k])
    ensures Classify(c) == Some(StopCam) <==>
      (forall k :: 0 <= k < |ENABLE_COMMANDS| ==> !Includes(c, ENABLE_COMMANDS[k])) &&
      exists k :: 0 <= k < |STOP_COMMANDS| && Includes(c, STOP_COMMANDS[k])
    ensures Classify(c) == Some(SwitchCamera) <==>
      (forall k :: 0 <= k < |ENABLE_COMMANDS| ==> !Includes(c, ENABLE_COMMANDS[k])) &&
      (forall k :: 0 <= k < |STOP_COMMANDS| ==> !Includes(c, STOP_COMMANDS[k])) &&
      exists k :: 0 <= k < |SWITCH_COMMANDS| && Includes(c, SWITCH_COMMANDS[k])
    ensures Classify(c) == None <==>
      (forall k :: 0 <= k < |ENABLE_COMMANDS| ==> !Includes(c, ENABLE_COMMANDS[k])) &&
      (forall k :: 0 <= k < |STOP_COMMANDS| ==> !Includes(c, STOP_COMMANDS[k])) &&
      (forall k :: 0 <= k < |SWITCH_COMMANDS| ==> !Includes(c, SWITCH_COMMANDS[k]))
  {
    MatchesAnyIff(c, ENABLE_COMMANDS);
    MatchesAnyIff(c, STOP_COMMANDS);
    MatchesAnyIff(c, SWITCH_COMMANDS);
  }

  /** The action a transcript selects. */
  function Route(transcript: string): Option<Command> {
    Classify(Normalize(transcript))
  }

  /** A string without leading or trailing spaces is its own trim. */
  lemma {:induction false} TrimTrimmed(s: string)
    requires s == [] || (!IsSpace(s[0]) && !IsSpace(s[|s| - 1]))
    ensures Trim(s) == s
  {
  }

  /** Lower-casing moves no character into or out of the space set. */
  lemma {:induction false} LowerKeepsSpaces(s: string)
    ensures forall i :: 0 <= i < |s| ==> (IsSpace(Lower(s)[i]) <==> IsSpace(s[i]))
  {
  }

  /** Normalizing twice is normalizing once. */
  lemma {:induction false} NormalizeIdempotent(t: string)
    ensures Normalize(Normalize(t)) == Normalize(t)
  {
    var s := Trim(t);
    var n := Lower(s);
    LowerKeepsSpaces(s);
    TrimTrimmed(n);
    assert Lower(n) == n;
  }

  /** Routing ignores case and surrounding spaces. */
  lemma {:induction false} RouteNormalized(t: string)
    ensures Route(Normalize(t)) == Route(t)
  {
    NormalizeIdempotent(t);
  }

  /** Lower-casing commutes with taking a slice. */
  lemma {:induction false} LowerSlice(u: string, a: int, b: int)
    requires 0 <= a <= b <= |u|
    ensures Lower(u)[a..b] == Lower(u[a..b])
  {
  }

  /** Lower-casing a string without upper-case letters changes nothing. */
  lemma {:induction false} LowerUnchanged(s: string)
    requires forall i :: 0 <= i < |s| ==> !IsUpper(s[i])
    ensures Lower(s) == s
  {
    forall i | 0 <= i < |s|
      ensures Lower(s)[i] == s[i]
    {
      assert !IsUpper(s[i]);
    }
  }

  /** An occurrence at `i` is an occurrence at `i - d` once `d <= i` leading characters are dropped. */
  lemma {:induction false} DropOccurs(s: string, p: string, i: int, d: int)
    requires 0 <= d <= i && OccursAt(s, p, i)
    ensures OccursAt(s[d..], p, i - d)
  {
    assert s[d..][i - d..i - d + |p|] == s[i..i + |p|];
  }

  /** An occurrence is kept by a prefix long enough to hold it. */
  lemma {:induction false} TakeOccurs(s: string, p: string, m: int, e: int)
    requires OccursAt(s, p, m) && m + |p| <= e <= |s|
    ensures OccursAt(s[..e], p, m)
  {
    assert s[..e][m..m + |p|] == s[m..m + |p|];
  }

  /** A phrase that starts with a non-space survives dropping leading spaces, shifted left. */
  lemma {:induction false} StartOccurs(s: string, p: string, i: int)
    requires |p| > 0 && !IsSpace(p[0]) && OccursAt(s, p, i)
    ensures OccursAt(TrimStart(s), p, i - (|s| - |TrimStart(s)|))
  {
    assert s[i..i + |p|][0] == s[i];
    DropOccurs(s, p, i, |s| - |TrimStart(s)|);
  }

  /** A phrase that ends with a non-space survives dropping trailing spaces. */
  lemma {:induction false} EndOccurs(u: string, p: string, m: int)
    requires |p| > 0 && !IsSpace(p[|p| - 1]) && OccursAt(u, p, m)
    ensures OccursAt(TrimEnd(u), p, m)
  {
    assert u[m..m + |p|][|p| - 1] == u[m + |p| - 1];
    TakeOccurs(u, p, m, |TrimEnd(u)|);
  }

  /** A phrase with non-space ends found in `s` is found in `Trim(s)`, shifted left by the dropped prefix. */
  lemma {:induction false} TrimOccurs(s: string, p: string, i: int)
    requires |p| > 0 && !IsSpace(p[0]) && !IsSpace(p[|p| - 1])
    requires OccursAt(s, p, i)
    ensures OccursAt(Trim(s), p, i - (|s| - |TrimStart(s)|))
  {
    StartOccurs(s, p, i);
    EndOccurs(TrimStart(s), p, i - (|s| - |TrimStart(s)|));
  }

  /** A phrase without upper-case letters found in `u` is found at the same place in `Lower(u)`. */
  lemma {:induction false} LowerOccurs(u: string, p: string, m: int)
    requires forall j :: 0 <= j < |p| ==> !IsUpper(p[j])
    requires OccursAt(u, p, m)
    ensures OccursAt(Lower(u), p, m)
  {
    LowerSlice(u, m, m + |p|);
    LowerUnchanged(p);
  }

  /**
   * A phrase that starts and ends with a non-space and has no upper-case
   * letter survives normalization: a transcript containing it still contains
   * it afterwards.
   */
  lemma {:induction false} PhraseSurvives(t: string, p: string, i: int)
    requires |p| > 0 && !IsSpace(p[0]) && !IsSpace(p[|p| - 1])
    requires forall j :: 0 <= j < |p| ==> !IsUpper(p[j])
    requires OccursAt(t, p, i)
    ensures Includes(Normalize(t), p)
  {
    TrimOccurs(t, p, i);
    LowerOccurs(Trim(t), p, i - (|t| - |TrimStart(t)|));
    IncludesIff(Normalize(t), p);
  }

  /** A phrase occurs in `a + p + b` right after `a`. */
  lemma {:induction false} OccursBetween(a: string, p: string, b: string)
    ensures OccursAt(a + p + b, p, |a|)
  {
    assert (a + p + b)[|a|..|a| + |p|] == p;
  }

  /**
   * Any transcript containing the letters "on" selects enable, because "on"
   * is itself an enable phrase: "stop detection" and "switch camera on" both
   * select enable.
   */
  lemma {:induction false} ContainsOnEnables(a: string, b: string)
    ensures Route(a + "on" + b) == Some(EnableCam)
  {
    var t := a + "on" + b;
    OccursBetween(a, ENABLE_COMMANDS[2], b);
    PhraseSurvives(t, ENABLE_COMMANDS[2], |a|);
    ClassifyEnable(Normalize(t), 2);
  }

  /** A transcript containing "stop" selects enable or stop, never switch. */
  lemma {:induction false} StopBeatsSwitch(a: string, b: string)
    ensures Route(a + "stop" + b) in {Some(EnableCam), Some(StopCam)}
  {
    var t := a + "stop" + b;
    OccursBetween(a, STOP_COMMANDS[4], b);
    PhraseSurvives(t, STOP_COMMANDS[4], |a|);
    ClassifyStop(Normalize(t), 4);
  }

  /** A transcript containing "switch" selects some command. */
  lemma {:induction false} SwitchIsRouted(a: string, b: string)
    ensures Route(a + "switch" + b).Some?
  {
    var t := a + "switch" + b;
    OccursBetween(a, SWITCH_COMMANDS[2], b);
    PhraseSurvives(t, SWITCH_COMMANDS[2], |a|);
    ClassifySwitch(Normalize(t), 2);
  }

  /** Any transcript containing "enable" selects enable. */
  lemma {:induction false} ContainsEnableEnables(a: string, b: string)
    ensures Route(a + "enable" + b) == Some(EnableCam)
  {
    var t := a + "enable" + b;
    OccursBetween(a, ENABLE_COMMANDS[5], b);
    PhraseSurvives(t, ENABLE_COMMANDS[5], |a|);
    ClassifyEnable(Normalize(t), 5);
  }

  /** A phrase containing a character the command lacks is not included in it. */
  lemma {:induction false} MissingChar(s: string, phrase: string, c: char)
    requires c in phrase
    ensures Includes(s, phrase) ==> c in s
  {
    IncludesIff(s, phrase);
    if Includes(s, phrase) {
      var i :| OccursAt(s, phrase, i);
      var j :| 0 <= j < |phrase| && phrase[j] == c;
      assert s[i + j] == c;
    }
  }

  /** Each phrase of the list contains the character `cs[k]`, which `s` lacks. */
  predicate Lacks(s: string, phrases: seq<string>, cs: seq<char>) {
    |cs| == |phrases| &&
    forall k :: 0 <= k < |phrases| ==> cs[k] in phrases[k] && cs[k] !in s
  }

  /** `s` contains no phrase of the list. */
  predicate IncludesNone(s: string, phrases: seq<string>) {
    forall k :: 0 <= k < |phrases| ==> !Includes(s, phrases[k])
  }

  /** A command that lacks a character of every phrase of a list includes none of them. */
  lemma {:induction false} LacksPhrases(s: string, phrases: seq<string>, cs: seq<char>)
    requires Lacks(s, phrases, cs)
    ensures IncludesNone(s, phrases)
  {
    forall k | 0 <= k < |phrases|
      ensures !Includes(s, phrases[k])
    {
      MissingChar(s, phrases[k], cs[k]);
    }
  }

  /** A transcript that normalization leaves alone: no surrounding spaces and no upper-case letter. */
  predicate IsNormal(t: string) {
    (t == [] || (!IsSpace(t[0]) && !IsSpace(t[|t| - 1]))) &&
    forall i :: 0 <= i < |t| ==> !IsUpper(t[i])
  }

  /** A transcript without surrounding spaces or upper-case letters is its own normal form. */
  lemma {:induction false} NormalizeNormal(t: string)
    requires IsNormal(t)
    ensures Normalize(t) == t
  {
    TrimTrimmed(t);
    assert Lower(t) == t;
  }

  /** A transcript in which an enable phrase occurs anywhere routes to enable. */
  lemma {:induction false} RoutesToEnable(t: string, k: int, i: int)
    requires 0 <= k < |ENABLE_COMMANDS| && ENABLE_COMMANDS[k] != [] && IsNormal(ENABLE_COMMANDS[k])
    requires OccursAt(t, ENABLE_COMMANDS[k], i)
    ensures Route(t) == Some(EnableCam)
  {
    PhraseSurvives(t, ENABLE_COMMANDS[k], i);
    ClassifyEnable(Normalize(t), k);
  }

  /** "stop camera on" contains both a stop and an enable phrase; enable wins. */
  lemma StopCameraOnEnables()
    ensures Route("stop camera on") == Some(EnableCam)
  {
    RoutesToEnable("stop camera on", 2, 12);
  }

  /** "please enable camera now" selects enable. */
  lemma PleaseEnableCamera()
    ensures Route("please enable camera now") == Some(EnableCam)
  {
    RoutesToEnable("please enable camera now", 5, 7);
  }

  /** A normal transcript with a stop phrase and no enable phrase routes to stop. */
  lemma {:induction false} RoutesToStop(t: string, k: int, i: int)
    requires IsNormal(t) && IncludesNone(t, ENABLE_COMMANDS)
    requires 0 <= k < |STOP_COMMANDS| && OccursAt(t, STOP_COMMANDS[k], i)
    ensures Route(t) == Some(StopCam)
  {
    assert Classify(t) == Some(StopCam) by {
      IncludesIff(t, STOP_COMMANDS[k]);
      ClassifyIff(t);
    }
    NormalizeNormal(t);
  }

  /** A normal transcript with a switch phrase and no enable or stop phrase routes to switch. */
  lemma {:induction false} RoutesToSwitch(t: string, k: int, i: int)
    requires IsNormal(t) && IncludesNone(t, ENABLE_COMMANDS) && IncludesNone(t, STOP_COMMANDS)
    requires 0 <= k < |SWITCH_COMMANDS| && OccursAt(t, SWITCH_COMMANDS[k], i)
    ensures Route(t) == Some(SwitchCamera)
  {
    assert Classify(t) == Some(SwitchCamera) by {
      IncludesIff(t, SWITCH_COMMANDS[k]);
      ClassifyIff(t);
    }
    NormalizeNormal(t);
  }

  /** A normal transcript with no phrase of any list routes nowhere. */
  lemma {:induction false} RoutesNowhere(t: string)
    requires IsNormal(t) && IncludesNone(t, ENABLE_COMMANDS)
    requires IncludesNone(t, STOP_COMMANDS) && IncludesNone(t, SWITCH_COMMANDS)
    ensures Route(t) == None
  {
    assert Classify(t) == None by {
      ClassifyIff(t);
    }
    NormalizeNormal(t);
  }

  /** "stop webcam" is normal, lacks 'n', 'l' and 'r', and starts with a stop phrase. */
  lemma StopWebcamShape()
    ensures IsNormal("stop webcam") && Lacks("stop webcam", ENABLE_COMMANDS, "lrnrrlrr")
    ensures OccursAt("stop webcam", STOP_COMMANDS[0], 0)
  {
  }

  /** "stop webcam" contains no enable phrase: it selects stop. */
  lemma StopWebcamStops()
    ensures Route("stop webcam") == Some(StopCam)
  {
    StopWebcamShape();
    LacksPhrases("stop webcam", ENABLE_COMMANDS, "lrnrrlrr");
    RoutesToStop("stop webcam", 0, 0);
  }

  /** "switch" is normal, lacks a character of every enable and stop phrase, and is a switch phrase. */
  lemma SwitchShape()
    ensures IsNormal("switch") && Lacks("switch", ENABLE_COMMANDS, "manaaera")
    ensures Lacks("switch", STOP_COMMANDS, "mafapeaaf") && OccursAt("switch", SWITCH_COMMANDS[2], 0)
  {
  }

  /** "switch" contains no enable and no stop phrase: it selects switch. */
  lemma SwitchSwitches()
    ensures Route("switch") == Some(SwitchCamera)
  {
    SwitchShape();
    LacksPhrases("switch", ENABLE_COMMANDS, "manaaera");
    LacksPhrases("switch", STOP_COMMANDS, "mafapeaaf");
    RoutesToSwitch("switch", 2, 0);
  }

  /** "hello" is normal and lacks a character of every phrase of the three lists. */
  lemma HelloShape()
    ensures IsNormal("hello") && Lacks("hello", ENABLE_COMMANDS, "manaabta")
    ensures Lacks("hello", STOP_COMMANDS, "mafapbaaf") && Lacks("hello", SWITCH_COMMANDS, "macag")
  {
  }

  /** "hello" contains no phrase of any list: it selects nothing. */
  lemma HelloIsUnmatched()
    ensures Route("hello") == None
  {
    HelloShape();
    LacksPhrases("hello", ENABLE_COMMANDS, "manaabta");
    LacksPhrases("hello", STOP_COMMANDS, "mafapbaaf");
    LacksPhrases("hello", SWITCH_COMMANDS, "macag");
    RoutesNowhere("hello");
  }
}
