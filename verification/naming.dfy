/**
 * Composition of the full object name of a scheduled downtime from the
 * short name it is declared with and the host/service it applies to:
 * `host!short` for a host downtime, `host!service!short` for a service one.
 */
module Naming {

  /** The separator between the parts of a composite object name. */
  const Separator: char := '!'

  /**
   * The object the name composer is handed as context. Only a scheduled
   * downtime carries the host and service names the composer needs; any
   * other object yields the empty name.
   */
  datatype Context =
    | ScheduledDowntimeContext(hostName: string, serviceName: string)
    | OtherObject

  /** The name of the checkable a scheduled downtime applies to. */
  function TargetKey(hostName: string, serviceName: string): (key: string)
    ensures serviceName == "" ==> key == hostName
    ensures serviceName != "" ==>
              |key| == |hostName| + 1 + |serviceName| &&
              key[..|hostName|] == hostName && key[|hostName|] == Separator &&
              key[|hostName| + 1..] == serviceName
  {
    if serviceName == "" then hostName else hostName + [Separator] + serviceName
  }

  /**
   * ScheduledDowntimeNameComposer::MakeName: the host name, then the service
   * name when there is one, then the short name, joined by `!`; the empty
   * string when the context is not a scheduled downtime.
   */
  function MakeName(shortName: string, context: Context): (name: string)
    ensures name == "" <==> context.OtherObject?
    ensures context.ScheduledDowntimeContext? ==>
              var target := TargetKey(context.hostName, context.serviceName);
              |name| == |target| + 1 + |shortName| &&
              name[..|target|] == target &&
              name[|target|] == Separator &&
              name[|target| + 1..] == shortName
  {
    match context
    case OtherObject => ""
    case ScheduledDowntimeContext(host, service) =>
      var target := TargetKey(host, service);
      var name := target + [Separator] + shortName;
      assert name[..|target|] == target;
      assert name[|target| + 1..] == shortName;
      name
  }

  /** Splits `s` at every occurrence of `sep`; there is always at least one part. */
  function Split(s: string, sep: char): (parts: seq<string>)
    ensures |parts| >= 1
    ensures |parts| == 1 ==> parts[0] == s
    decreases |s|
  {
    if s == [] then [""]
    else
      var rest := Split(s[1..], sep);
      if s[0] == sep then [""] + rest
      else [[s[0]] + rest[0]] + rest[1..]
  }

  /** A string without the separator is a single part. */
  lemma {:induction false} SplitNoSeparator(s: string, sep: char)
    requires sep !in s
    ensures Split(s, sep) == [s]
    decreases |s|
  {
    if s != [] {
      assert sep !in s[1..];
      SplitNoSeparator(s[1..], sep);
    }
  }

  /** Splitting `a + sep + b` yields `a` followed by the parts of `b`, when `a` holds no separator. */
  lemma {:induction false} SplitAtFirstSeparator(a: string, b: string, sep: char)
    requires sep !in a
    ensures Split(a + [sep] + b, sep) == [a] + Split(b, sep)
    decreases |a|
  {
    var s := a + [sep] + b;
    if a == [] {
      assert s[1..] == b;
    } else {
      assert s[1..] == a[1..] + [sep] + b;
      assert sep !in a[1..];
      SplitAtFirstSeparator(a[1..], b, sep);
      assert [a[0]] + a[1..] == a;
    }
  }

  /**
   * The composed name can be taken apart again: when no component holds
   * the separator, splitting the name at `!` gives back the host, the
   * service (when there is one) and the short name.
   */
  lemma MakeNameSplits(shortName: string, hostName: string, serviceName: string)
    requires Separator !in hostName && Separator !in serviceName && Separator !in shortName
    ensures Split(MakeName(shortName, ScheduledDowntimeContext(hostName, serviceName)), Separator)
         == if serviceName == "" then [hostName, shortName] else [hostName, serviceName, shortName]
  {
    SplitNoSeparator(shortName, Separator);
    if serviceName == "" {
      SplitAtFirstSeparator(hostName, shortName, Separator);
    } else {
      var tail := serviceName + [Separator] + shortName;
      assert hostName + [Separator] + serviceName + [Separator] + shortName
          == hostName + [Separator] + tail;
      SplitAtFirstSeparator(hostName, tail, Separator);
      SplitAtFirstSeparator(serviceName, shortName, Separator);
    }
  }

  /**
   * Distinct downtime declarations get distinct names: equal composed names
   * imply equal host, service and short names (when no component holds `!`).
   */
  lemma MakeNameInjective(short1: string, host1: string, service1: string,
                          short2: string, host2: string, service2: string)
    requires Separator !in host1 && Separator !in service1 && Separator !in short1
    requires Separator !in host2 && Separator !in service2 && Separator !in short2
    requires MakeName(short1, ScheduledDowntimeContext(host1, service1))
          == MakeName(short2, ScheduledDowntimeContext(host2, service2))
    ensures host1 == host2 && service1 == service2 && short1 == short2
  {
    MakeNameSplits(short1, host1, service1);
    MakeNameSplits(short2, host2, service2);
  }
}
