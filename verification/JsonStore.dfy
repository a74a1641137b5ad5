/** The two flat files the bot keeps: the list of known member IDs and the
    map of departure records. A file is seen only through what a JSON read
    of it yields; the text itself is abstracted away. */
module JsonStore {

  /** What a file holds: nothing at all, only whitespace, text that is not
      JSON, or a JSON document denoting a value of type T. */
  datatype File<T> = Absent | Blank | Invalid | Valid(value: T)

  /** load_json_file: the stored mapping, or the empty mapping whenever the
      file is missing, blank or not JSON. It has no failure outcome. */
  function LoadJsonFile<K, V>(f: File<map<K, V>>): (m: map<K, V>)
    ensures f.Valid? ==> m == f.value
  {
    match f
    case Valid(value) => value
    case _ => map[]
  }

  /** save_json_file: overwrite the file with the JSON form of data. */
  function SaveJsonFile<T>(data: T): File<T> {
    Valid(data)
  }

  /** init_file: create the file holding defaultData, but only when there is
      no file yet; whatever an existing file holds is kept. */
  function InitFile<T>(f: File<T>, defaultData: T): (r: File<T>)
    ensures !r.Absent?
    ensures !f.Absent? ==> r == f
  {
    if f.Absent? then Valid(defaultData) else f
  }

  /** The inline read of the member list in save_user and check_who_left:
      the stored list, or the empty list when the read fails to decode. */
  function ReadUserList(f: File<seq<int>>): (users: seq<int>)
    ensures f.Valid? ==> users == f.value
  {
    match f
    case Valid(value) => value
    case _ => []
  }

  lemma LoadFallsBackToEmpty<K, V>(f: File<map<K, V>>)
    requires f.Absent? || f.Blank? || f.Invalid?
    ensures LoadJsonFile(f) == map[]
  {
  }

  lemma ReadUserListFallsBackToEmpty(f: File<seq<int>>)
    requires f.Absent? || f.Blank? || f.Invalid?
    ensures ReadUserList(f) == []
  {
  }

  /** What is saved is what is loaded back. */
  lemma LoadAfterSave<K, V>(m: map<K, V>)
    ensures LoadJsonFile(SaveJsonFile(m)) == m
  {
  }

  /** A member list that is written is read back unchanged. */
  lemma ReadUserListAfterSave(users: seq<int>)
    ensures ReadUserList(SaveJsonFile(users)) == users
  {
  }

  /** Bootstrapping twice is bootstrapping once, and a file that exists is
      never rewritten, whatever it holds. */
  lemma InitFileIdempotent<T>(f: File<T>, defaultData: T)
    ensures InitFile(InitFile(f, defaultData), defaultData) == InitFile(f, defaultData)
    ensures f.Absent? ==> InitFile(f, defaultData) == Valid(defaultData)
    ensures f.Invalid? ==> InitFile(f, defaultData) == Invalid
  {
  }
}
