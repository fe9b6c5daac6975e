/** The application's JNI callbacks of source/java.c: the `command` method
    and the tables that register it and the two static fields. */
module Java {
  import opened CStrings

  /** The key of a command: its first space-separated token (`strtok(arg, " ")`). */
  function Key(arg: string): Option<string>
  {
    Strtok(arg).0
  }

  /** The value of a command: its second token (`strtok(NULL, " ")`); only
      logged. There is none without a key, and a value is a non-empty run of
      non-spaces. */
  function Value(arg: string): (r: Option<string>)
    ensures Key(arg).None? ==> r.None?
    ensures r.Some? ==> r.value != [] && ' ' !in r.value
  {
    Strtok(Strtok(arg).1).0
  }

  /** A one-token argument has no value: the second `strtok` starts on the
      empty rest and returns NULL. */
  lemma NoValueAfterOneToken(key: string)
    requires key != [] && ' ' !in key
    ensures Value(key) == None
  {
    OnlyToken(key);
    assert AllSpaces([]);
  }

  /** The second token of `key value` and of `key value rest` is `value`. */
  lemma ValueOfTokens(key: string, value: string, rest: string)
    requires key != [] && ' ' !in key
    requires value != [] && ' ' !in value
    ensures Value(key + " " + value) == Some(value)
    ensures Value(key + " " + value + " " + rest) == Some(value)
  {
    var two := key + " " + value;
    FirstToken(key, value);
    OnlyToken(value);
    assert Value(two) == Strtok(value).0;
    var tail := value + " " + rest;
    var three := key + " " + tail;
    assert key + " " + value + " " + rest == three;
    FirstToken(key, tail);
    FirstToken(value, rest);
    assert Value(three) == Strtok(tail).0;
  }

  /** A token without spaces is the only token of itself. */
  lemma OnlyToken(t: string)
    requires t != [] && ' ' !in t
    ensures Strtok(t) == (Some(t), [])
  {
    assert SpanSpaces(t) == 0;
    TokenRun(t, "");
    assert t[0..|t|] == t;
  }

  /** A token followed by a space: strtok returns the token and resumes just
      past that space. */
  lemma FirstToken(t: string, rest: string)
    requires t != [] && ' ' !in t
    ensures Strtok(t + " " + rest) == (Some(t), rest)
  {
    var s := t + " " + rest;
    assert s[0] == t[0];
    assert SpanSpaces(s) == 0;
    TokenRun(t, rest);
    assert s[0..|t|] == t;
    assert s[|t| + 1..] == rest;
  }

  /** The fixed replies, in the order the keys are tested. */
  const Replies: seq<(string, string)> := [
    ("storegetstatus", "2"),
    ("storeisrestored", "true"),
    ("storegetprice", ""),
    ("issignedin", "false"),
    ("storeenabled", "true")
  ]

  /** Table-driven reference: the reply of the first entry whose key occurs in
      `key`, or "" when none does. */
  function FirstReply(key: string, table: seq<(string, string)>): string
  {
    if table == [] then ""
    else if Contains(key, table[0].0) then table[0].1
    else FirstReply(key, table[1..])
  }

  /** The first matching entry wins, whatever later entries also match. */
  lemma {:induction false} FirstReplyIsFirstMatch(key: string, table: seq<(string, string)>, i: int)
    requires 0 <= i < |table| && Contains(key, table[i].0)
    requires forall j :: 0 <= j < i ==> !Contains(key, table[j].0)
    ensures FirstReply(key, table) == table[i].1
    decreases i
  {
    if i > 0 {
      assert !Contains(key, table[0].0);
      FirstReplyIsFirstMatch(key, table[1..], i - 1);
    }
  }

  /** A key that contains none of the table's keys gets the empty reply. */
  lemma {:induction false} FirstReplyNoMatch(key: string, table: seq<(string, string)>)
    requires forall j :: 0 <= j < |table| ==> !Contains(key, table[j].0)
    ensures FirstReply(key, table) == ""
    decreases |table|
  {
    if table != [] {
      assert !Contains(key, table[0].0);
      FirstReplyNoMatch(key, table[1..]);
    }
  }

  /** `command`: the argument must hold a token, or `strstr(NULL, ...)` is
      undefined. The reply is the first reply of the table whose key occurs
      in the first token. */
  function Command(arg: string): (r: string)
    requires !AllSpaces(arg)
    ensures r == FirstReply(Key(arg).value, Replies)
    ensures r in {"2", "true", "", "false"}
  {
    var key := Key(arg).value;
    assert FirstReply(key, Replies) ==
      if Contains(key, "storegetstatus") then "2" else FirstReply(key, Replies[1..]);
    assert FirstReply(key, Replies[1..]) ==
      if Contains(key, "storeisrestored") then "true" else FirstReply(key, Replies[2..]);
    assert FirstReply(key, Replies[2..]) ==
      if Contains(key, "storegetprice") then "" else FirstReply(key, Replies[3..]);
    assert FirstReply(key, Replies[3..]) ==
      if Contains(key, "issignedin") then "false" else FirstReply(key, Replies[4..]);
    assert FirstReply(key, Replies[4..]) ==
      if Contains(key, "storeenabled") then "true" else FirstReply(key, Replies[5..]);
    if Contains(key, "storegetstatus") then "2"
    else if Contains(key, "storeisrestored") then "true"
    else if Contains(key, "storegetprice") then ""
    else if Contains(key, "issignedin") then "false"
    else if Contains(key, "storeenabled") then "true"
    else ""
  }

  /** Only the first token is tested: whatever follows the first space leaves
      the reply unchanged. */
  lemma CommandIgnoresValue(key: string, rest: string)
    requires key != [] && ' ' !in key
    ensures !AllSpaces(key) && !AllSpaces(key + " " + rest)
    ensures Command(key + " " + rest) == Command(key)
  {
    var arg := key + " " + rest;
    assert arg[0] == key[0] != ' ';
    assert key[0] != ' ';
    KeyOfToken(key, rest);
  }

  lemma KeyOfToken(key: string, rest: string)
    requires key != [] && ' ' !in key
    ensures Key(key + " " + rest) == Some(key) && Key(key) == Some(key)
  {
    var arg := key + " " + rest;
    assert SpanSpaces(arg) == 0 && SpanSpaces(key) == 0;
    TokenRun(key, rest);
    TokenRun(key, "");
    assert arg[..|key|] == key;
    assert (key + "")[..|key|] == key;
  }

  lemma {:induction false} TokenRun(key: string, rest: string)
    requires ' ' !in key
    ensures SpanToken(key) == |key| && SpanToken(key + " " + rest) == |key|
    decreases |key|
  {
    if key != [] {
      TokenRun(key[1..], rest);
      assert (key + " " + rest)[1..] == key[1..] + " " + rest;
    }
  }

  datatype MethodType = MethodTypeObject
  datatype FieldType = FieldTypeObject | FieldTypeInt

  datatype NameToMethodId = NameToMethodId(id: int, name: string, kind: MethodType)
  datatype NameToFieldId = NameToFieldId(id: int, name: string, kind: FieldType)

  /** The native implementations behind object-returning method ids. */
  datatype ObjectMethod = CommandMethod

  /** Runs an object-returning method on its string argument. */
  function InvokeObject(m: ObjectMethod, arg: string): string
    requires !AllSpaces(arg)
  {
    match m
    case CommandMethod => Command(arg)
  }

  const NameToMethodIds: seq<NameToMethodId> := [NameToMethodId(10, "command", MethodTypeObject)]
  const MethodsObject: seq<(int, ObjectMethod)> := [(10, CommandMethod)]

  /** android.content.Context.WINDOW_SERVICE */
  const WindowService := "window"
  /** android.os.Build.VERSION.SDK_INT: 19 is Android 4.4. */
  const SdkInt := 19

  const NameToFieldIds: seq<NameToFieldId> := [
    NameToFieldId(0, "WINDOW_SERVICE", FieldTypeObject),
    NameToFieldId(1, "SDK_INT", FieldTypeInt)
  ]
  const FieldsInt: seq<(int, int)> := [(1, SdkInt)]
  const FieldsObject: seq<(int, string)> := [(0, WindowService)]

  /** The first entry of `table` with key `k`. */
  function Lookup<V>(table: seq<(int, V)>, k: int): (r: Option<V>)
    ensures r.Some? ==> (k, r.value) in table
    ensures r.None? ==> forall e :: e in table ==> e.0 != k
  {
    if table == [] then None
    else if table[0].0 == k then Some(table[0].1)
    else Lookup(table[1..], k)
  }

  function MethodIdOf(name: string): (r: Option<NameToMethodId>)
    ensures r.Some? ==> r.value in NameToMethodIds && r.value.name == name
    ensures r.None? ==> forall e :: e in NameToMethodIds ==> e.name != name
  {
    if NameToMethodIds[0].name == name then Some(NameToMethodIds[0]) else None
  }

  function FieldIdOf(name: string): (r: Option<NameToFieldId>)
    ensures r.Some? ==> r.value in NameToFieldIds && r.value.name == name
    ensures r.None? ==> forall e :: e in NameToFieldIds ==> e.name != name
  {
    if NameToFieldIds[0].name == name then Some(NameToFieldIds[0])
    else if NameToFieldIds[1].name == name then Some(NameToFieldIds[1])
    else None
  }

  /** What the registries resolve: "command" is object method 10 and runs
      `command`; WINDOW_SERVICE is object field 0 holding "window"; SDK_INT is
      int field 1 holding 19. */
  lemma RegistryContents(arg: string)
    requires !AllSpaces(arg)
    ensures MethodIdOf("command") == Some(NameToMethodId(10, "command", MethodTypeObject))
    ensures Lookup(MethodsObject, 10) == Some(CommandMethod)
    ensures InvokeObject(Lookup(MethodsObject, 10).value, arg) == Command(arg)
    ensures FieldIdOf("WINDOW_SERVICE") == Some(NameToFieldId(0, "WINDOW_SERVICE", FieldTypeObject))
    ensures Lookup(FieldsObject, 0) == Some("window")
    ensures FieldIdOf("SDK_INT") == Some(NameToFieldId(1, "SDK_INT", FieldTypeInt))
    ensures Lookup(FieldsInt, 1) == Some(19)
  {
  }
}
