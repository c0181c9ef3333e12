/** Which keys each masking rule names, and what it puts in the place of their values. */
module MaskNames {
  import opened Sequences
  import opened Contracts

  /** The last characters of the key are those of `suffix`. */
  ghost predicate EndsIn(key: string, suffix: string) {
    |key| >= |suffix| && forall i :: 0 <= i < |suffix| ==> key[|key| - |suffix| + i] == suffix[i]
  }

  /** From some index on, the characters of the key are those of `part`. */
  ghost predicate HasPart(key: string, part: string) {
    exists j :: 0 <= j <= |key| && PartAt(key, part, j)
  }

  ghost predicate PartAt(key: string, part: string, j: nat) {
    j + |part| <= |key| && forall i :: 0 <= i < |part| ==> key[j + i] == part[i]
  }

  ghost predicate NamesPid(key: string) {
    || key == "pid" || key == "process_id" || key == "child_pid" || key == "parent_pid" || key == "child"
    || key == "parent" || key == "creator_pid" || key == "target_pid" || EndsIn(key, "_pid")
  }

  ghost predicate NamesPpid(key: string) {
    key == "ppid" || key == "parent_process_id"
  }

  ghost predicate NamesTid(key: string) {
    key == "tid" || key == "thread_id" || key == "thread" || EndsIn(key, "_tid")
  }

  ghost predicate NamesInode(key: string) {
    key == "inode" || key == "ino" || key == "st_ino" || key == "inode_number"
  }

  ghost predicate NamesTime(key: string) {
    || HasPart(key, "timestamp") || EndsIn(key, "_time") || EndsIn(key, "_time_ns")
    || key == "atime" || key == "mtime" || key == "ctime" || key == "btime"
  }

  ghost predicate NamesPort(key: string) {
    key == "port" || key == "local_port" || key == "remote_port" || key == "ephemeral_port"
  }

  ghost predicate NamesAddress(key: string) {
    HasPart(key, "address") || key == "addr" || key == "pointer" || key == "ptr"
  }

  ghost predicate NamesHost(key: string) {
    || key == "hostname" || key == "kernel" || key == "kernel_release" || key == "platform" || key == "machine"
    || key == "nodename"
  }

  /** Whether a rule names a lower-cased key. */
  ghost predicate Names(rule: Rule, key: string) {
    match rule
    case Pid => NamesPid(key)
    case Ppid => NamesPpid(key)
    case Tid => NamesTid(key)
    case Inode => NamesInode(key)
    case Timestamps => NamesTime(key)
    case EphemeralPort => NamesPort(key)
    case Addresses => NamesAddress(key)
    case HostMetadata => NamesHost(key)
    case _ => false
  }

  /** The token for a key: of several declared rules that name it, the first in this order decides. */
  ghost function MaskOf(rules: set<Rule>, key: string): Option<string> {
    if Pid in rules && Names(Pid, key) then Some("<PID>")
    else if Ppid in rules && Names(Ppid, key) then Some("<PPID>")
    else MiddleMask(rules, key)
  }

  ghost function MiddleMask(rules: set<Rule>, key: string): Option<string> {
    if Tid in rules && Names(Tid, key) then Some("<TID>")
    else if Inode in rules && Names(Inode, key) then Some("<INODE>")
    else LateMask(rules, key)
  }

  ghost function LateMask(rules: set<Rule>, key: string): Option<string> {
    if Timestamps in rules && Names(Timestamps, key) then Some("<TIME>")
    else if EphemeralPort in rules && Names(EphemeralPort, key) then Some("<PORT>")
    else if Addresses in rules && Names(Addresses, key) then Some("<ADDRESS>")
    else if HostMetadata in rules && Names(HostMetadata, key) then Some("<HOST>")
    else None
  }

  /** The token of a masking rule. */
  ghost predicate IsToken(rule: Rule, token: string) {
    match rule
    case Pid => token == "<PID>"
    case Ppid => token == "<PPID>"
    case Tid => token == "<TID>"
    case Inode => token == "<INODE>"
    case Timestamps => token == "<TIME>"
    case EphemeralPort => token == "<PORT>"
    case Addresses => token == "<ADDRESS>"
    case HostMetadata => token == "<HOST>"
    case _ => false
  }

  /** A rule alone masks what it names. */
  lemma AloneMask(rule: Rule, token: string, key: string)
    requires IsToken(rule, token)
    ensures MaskOf({rule}, key) == if Names(rule, key) then Some(token) else None
  {
    assert LateMask({rule}, key) == if rule in {Timestamps, EphemeralPort, Addresses, HostMetadata} && Names(rule, key)
                                    then Some(token) else None;
  }

  /** The lists that may come in any order. */
  ghost predicate NamesUnordered(rules: set<Rule>, key: string) {
    || (DirectoryOrder in rules && (key == "entries" || key == "directory_entries"))
    || (SchedulerOrder in rules && (key == "events" || key == "schedule" || key == "thread_order"))
  }
}
