/** The translation tables of src/i18n.ts: `translate` walks a list of
    (key, English, Chinese) triples and writes each into the English and
    the Chinese dictionary, so a later triple overwrites an earlier one
    with the same key. */
module I18n {
  import opened Types

  type Triple = (string, string, string)

  function KeysOf(ts: seq<Triple>): seq<string>
  {
    seq(|ts|, i requires 0 <= i < |ts| => ts[i].0)
  }

  /** The keys of a concatenation are the concatenated keys. */
  lemma KeysOfAppend(a: seq<Triple>, b: seq<Triple>)
    ensures KeysOf(a + b) == KeysOf(a) + KeysOf(b)
  {
  }

  /** No key occurs in two triples. */
  predicate DistinctKeys(ts: seq<Triple>)
  {
    forall i, j :: 0 <= i < j < |ts| ==> ts[i].0 != ts[j].0
  }

  /** The translation a triple gives in one language. */
  function Pick(t: Triple, chinese: bool): string
  {
    if chinese then t.2 else t.1
  }

  /** The dictionary of one language after assigning the triples in order. */
  function DictOf(ts: seq<Triple>, chinese: bool): map<string, string>
  {
    if ts == [] then map[]
    else DictOf(ts[..|ts| - 1], chinese)[ts[|ts| - 1].0 := Pick(ts[|ts| - 1], chinese)]
  }

  /** A key is in the dictionary exactly when some triple names it, and it
      maps to the translation of the last such triple. */
  lemma {:induction false} DictOfLookup(ts: seq<Triple>, chinese: bool, k: string)
    ensures k in DictOf(ts, chinese) <==> k in KeysOf(ts)
    ensures k in DictOf(ts, chinese) ==> DictOf(ts, chinese)[k] == Pick(ts[LastIndex(KeysOf(ts), k).value], chinese)
    decreases |ts|
  {
    if ts != [] {
      var p := ts[..|ts| - 1];
      assert ts == p + [ts[|ts| - 1]];
      KeysOfAppend(p, [ts[|ts| - 1]]);
      assert KeysOf([ts[|ts| - 1]]) == [ts[|ts| - 1].0];
      DictOfLookup(p, chinese, k);
    }
  }

  /** With no repeated key, each triple adds one entry. */
  lemma {:induction false} DictOfSize(ts: seq<Triple>, chinese: bool)
    requires DistinctKeys(ts)
    ensures |DictOf(ts, chinese)| == |ts|
    decreases |ts|
  {
    if ts != [] {
      var p := ts[..|ts| - 1];
      var k := ts[|ts| - 1].0;
      DictOfSize(p, chinese);
      DictOfLookup(p, chinese, k);
    }
  }

  /** `translate(translations)`: builds the two dictionaries in a fresh
      result. */
  method Translate(ts: seq<Triple>) returns (en: map<string, string>, zh: map<string, string>)
    ensures en.Keys == zh.Keys
    ensures DistinctKeys(ts) ==> |en| == |ts|
    ensures forall k :: k in en <==> k in KeysOf(ts)
    ensures forall k :: k in en ==>
      var i := LastIndex(KeysOf(ts), k).value;
      en[k] == ts[i].1 && zh[k] == ts[i].2
  {
    en, zh := map[], map[];
    var i := 0;
    while i < |ts|
      invariant 0 <= i <= |ts|
      invariant en == DictOf(ts[..i], false) && zh == DictOf(ts[..i], true)
    {
      var (k, e, z) := ts[i];
      en := en[k := e];
      zh := zh[k := z];
      assert ts[..i + 1][..i] == ts[..i];
      i := i + 1;
    }
    assert ts[..|ts|] == ts;
    forall k
      ensures k in en <==> k in KeysOf(ts)
      ensures k in zh <==> k in KeysOf(ts)
      ensures k in en ==> en[k] == ts[LastIndex(KeysOf(ts), k).value].1
      ensures k in zh ==> zh[k] == ts[LastIndex(KeysOf(ts), k).value].2
    {
      DictOfLookup(ts, false, k);
      DictOfLookup(ts, true, k);
    }
    if DistinctKeys(ts) {
      DictOfSize(ts, false);
    }
  }

  /** The key table of the client. */
  function Table(): seq<Triple>
  {
    [ ("action.edit", "Edit", "编辑"),
      ("action.login", "Login", "登录"),
      ("action.logout", "Logout", "退出登录"),
      ("action.save", "Save", "保存"),
      ("action.cancel", "Cancel", "取消"),
      ("action.add_note", "Add Note", "添加笔记"),
      ("sync.success", "Sync success", "同步成功"),
      ("sync.failure", "Sync failed. please try again later", "同步失败，请稍后重试"),
      ("login.failed", "Login failed, please check username & password", "登录失败，请检查您的用户名和密码。"),
      ("login.succeeded", "Login successful", "登陆成功"),
      ("note.updated_at", "Updated at: {{time}}", "更新于：{{time}}"),
      ("note.created_at", "Created at: {{time}}", "创建于：{{time}}"),
      ("username", "Username", "用户名"),
      ("password", "Password", "密码"),
      ("my_notes", "My Notes", "我的笔记"),
      ("sync_success", "Sync successful", "同步成功"),
      ("sync_failure", "Sync failed, please try again later", "同步失败，请稍后重试"),
      ("to", "to", "至"),
      ("creation_time", "Creation Time", "创建时间"),
      ("modification_time", "Modification Time", "修改时间"),
      ("syncing", "Syncing...", "同步中..."),
      ("sync_notes", "Sync Notes", "同步笔记"),
      ("last_x_days", "recent {{days}} days", "最近{{days}}天"),
      ("timing.num_unit_ago", "{{num}} {{unit}} ago", "{{num}}{{unit}}前"),
      ("timing.just_now", "just now", "刚刚"),
      ("timing.unit_hour", "hour", "小时"),
      ("timing.unit_minute", "minute", "分钟"),
      ("timing.unit_day", "day", "天") ]
  }

  /** The keys of the table, in order. */
  function TableKeyList(): seq<string>
  {
    [ "action.edit", "action.login", "action.logout", "action.save", "action.cancel",
      "action.add_note", "sync.success", "sync.failure", "login.failed", "login.succeeded",
      "note.updated_at", "note.created_at", "username", "password", "my_notes",
      "sync_success", "sync_failure", "to", "creation_time", "modification_time",
      "syncing", "sync_notes", "last_x_days", "timing.num_unit_ago", "timing.just_now",
      "timing.unit_hour", "timing.unit_minute", "timing.unit_day"]
  }

  lemma TableKeys()
    ensures KeysOf(Table()) == TableKeyList()
  {
  }

  lemma TableKeyListDistinct()
    ensures forall i, j :: 0 <= i < j < |TableKeyList()| ==> TableKeyList()[i] != TableKeyList()[j]
  {
  }

  /** No key of the table is repeated. */
  lemma TableKeysDistinct()
    ensures DistinctKeys(Table())
  {
    TableKeys();
    TableKeyListDistinct();
    forall i, j | 0 <= i < j < |Table()|
      ensures Table()[i].0 != Table()[j].0
    {
      assert Table()[i].0 == KeysOf(Table())[i] == TableKeyList()[i];
      assert Table()[j].0 == KeysOf(Table())[j] == TableKeyList()[j];
    }
  }

  /** The resources handed to i18next: 28 distinct keys, each present in
      both languages. */
  method Resources() returns (en: map<string, string>, zh: map<string, string>)
    ensures |en| == 28 && |zh| == 28 && en.Keys == zh.Keys
  {
    TableKeysDistinct();
    en, zh := Translate(Table());
  }
}
