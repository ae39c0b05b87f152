/** The work board (src/pages/WorkBoardPage/index.tsx): a side menu whose items
    depend on the stored role, the selected menu key (persisted to storage on
    every click), the collapse toggle, and the content shown for the key. */
module WorkBoard {
  import opened Web

  datatype MenuItem = MenuItem(key: string, title: string)

  /** The four base items, in menu order. */
  const BaseItems: seq<MenuItem> := [
    MenuItem("1", "图形数据"),
    MenuItem("2", "员工信息"),
    MenuItem("3", "请假审批"),
    MenuItem("4", "打卡情况")
  ]

  /** The admin filter keeps keys 1, 2 and 3; every other role, `null`
      included, keeps keys 3 and 4. */
  function AllowedKeys(role: Option<string>): set<string> {
    if role == Some("admin") then {"1", "2", "3"} else {"3", "4"}
  }

  /** `items.filter(item => item?.key in keys)`: exactly the items whose key is
      allowed, in their original order. */
  function Keep(items: seq<MenuItem>, keys: set<string>): (r: seq<MenuItem>)
    ensures forall x :: x in r <==> x in items && x.key in keys
    ensures |r| <= |items|
  {
    if items == [] then []
    else if items[0].key in keys then [items[0]] + Keep(items[1..], keys)
    else Keep(items[1..], keys)
  }

  /** `a` can be obtained from `b` by deleting elements. */
  predicate IsSubsequence<T(==)>(a: seq<T>, b: seq<T>)
    decreases |b|
  {
    if a == [] then true
    else if b == [] then false
    else (a[0] == b[0] && IsSubsequence(a[1..], b[1..])) || IsSubsequence(a, b[1..])
  }

  /** The filter keeps order: its result is a subsequence of its input. */
  lemma {:induction false} KeepIsSubsequence(items: seq<MenuItem>, keys: set<string>)
    ensures IsSubsequence(Keep(items, keys), items)
    decreases |items|
  {
    if items != [] {
      KeepIsSubsequence(items[1..], keys);
    }
  }

  /** The memoised `items`. */
  function VisibleItems(role: Option<string>): seq<MenuItem> {
    Keep(BaseItems, AllowedKeys(role))
  }

  function Keys(items: seq<MenuItem>): (ks: seq<string>)
    ensures |ks| == |items| && forall i :: 0 <= i < |items| ==> ks[i] == items[i].key
  {
    if items == [] then [] else [items[0].key] + Keys(items[1..])
  }

  /** The admin sees the first three base items, in order. */
  lemma AdminItems()
    ensures VisibleItems(Some("admin")) == BaseItems[..3]
  {
    var keys := AllowedKeys(Some("admin"));
    var b := BaseItems;
    assert "4" !in keys;
    assert b[3..][1..] == [];
    assert Keep(b[3..], keys) == [];
    assert b[2..][1..] == b[3..];
    assert Keep(b[2..], keys) == [b[2]];
    assert b[1..][1..] == b[2..];
    assert Keep(b[1..], keys) == [b[1], b[2]];
  }

  /** Every other role, `null` included, sees the last two base items, in order. */
  lemma OtherItems(role: Option<string>)
    requires role != Some("admin")
    ensures VisibleItems(role) == BaseItems[2..]
  {
    var keys := AllowedKeys(role);
    var b := BaseItems;
    assert "1" !in keys && "2" !in keys;
    assert b[3..][1..] == [];
    assert Keep(b[3..], keys) == [b[3]];
    assert b[2..][1..] == b[3..];
    assert Keep(b[2..], keys) == [b[2], b[3]];
    assert b[1..][1..] == b[2..];
    assert Keep(b[1..], keys) == [b[2], b[3]];
  }

  /** The admin sees keys 1, 2, 3 in that order; any other role, `null`
      included, sees keys 3, 4; either way the menu is an order-preserving
      selection of the base items. */
  lemma VisibleKeys(role: Option<string>)
    ensures role == Some("admin") ==> Keys(VisibleItems(role)) == ["1", "2", "3"]
    ensures role != Some("admin") ==> Keys(VisibleItems(role)) == ["3", "4"]
    ensures IsSubsequence(VisibleItems(role), BaseItems)
  {
    if role == Some("admin") {
      AdminItems();
    } else {
      OtherItems(role);
    }
    KeepIsSubsequence(BaseItems, AllowedKeys(role));
  }

  /** The `selectedKey` initialiser: for the admin, the saved key unless it is
      absent or empty, then `"1"`; for everyone else `"3"`, whatever is saved. */
  function InitialKey(role: Option<string>, saved: Option<string>): (k: string)
    ensures role != Some("admin") ==> k == "3"
    ensures role == Some("admin") && Truthy(saved) ==> k == saved.value
    ensures role == Some("admin") && !Truthy(saved) ==> k == "1"
  {
    if role == Some("admin") then OrElse(saved, "1") else "3"
  }

  /** The initial key is on the visible menu, except when the admin's saved
      key is one the admin menu does not list (such as `"4"`). */
  lemma InitialKeyIsVisible(role: Option<string>, saved: Option<string>)
    requires role == Some("admin") && Truthy(saved) ==> saved.value in {"1", "2", "3"}
    ensures InitialKey(role, saved) in Keys(VisibleItems(role))
  {
  }

  /** What `menuKeyComponentMap` renders. */
  datatype View = Charts | EmployeeList | HelloWorld | AttendancePanel

  const ContentMap: map<string, View> := map["1" := Charts, "2" := EmployeeList, "3" := HelloWorld, "4" := AttendancePanel]

  /** `menuKeyComponentMap[selectedKey]`: keys 1 to 4 show their view, any other
      key shows nothing. */
  function Content(key: string): (v: Option<View>)
    ensures v.Some? <==> key in {"1", "2", "3", "4"}
    ensures key == "1" ==> v == Some(Charts)
    ensures key == "2" ==> v == Some(EmployeeList)
    ensures key == "3" ==> v == Some(HelloWorld)
    ensures key == "4" ==> v == Some(AttendancePanel)
  {
    if key in ContentMap then Some(ContentMap[key]) else None
  }

  class WorkBoardPage {
    var collapsed: bool
    var userRole: Option<string>
    var selectedKey: string

    /** The state cells' initial values: `userRole` from storage, and the
        selected key from the initialiser applied to that role and the saved key. */
    constructor (b: Browser)
      ensures !collapsed
      ensures userRole == GetItem(b.storage, "userRole")
      ensures selectedKey == InitialKey(userRole, GetItem(b.storage, "selectedMenuKey"))
    {
      collapsed := false;
      var role := GetItem(b.storage, "userRole");
      userRole := role;
      var savedKey := GetItem(b.storage, "selectedMenuKey");
      selectedKey := if role == Some("admin") then (if savedKey.Some? && savedKey.value != "" then savedKey.value else "1") else "3";
    }

    function Items(): seq<MenuItem>
      reads this
    {
      VisibleItems(userRole)
    }

    function Shown(): Option<View>
      reads this
    {
      Content(selectedKey)
    }

    /** `toggleCollapsed`: flips the flag, so two toggles restore it. */
    method ToggleCollapsed()
      modifies this`collapsed
      ensures collapsed == !old(collapsed)
    {
      collapsed := !collapsed;
    }

    /** `handleMenuClick`: selects the clicked key and saves the same key under
        `selectedMenuKey`, leaving every other stored entry alone. */
    method HandleMenuClick(b: Browser, key: string)
      modifies this`selectedKey, b`storage
      ensures selectedKey == key
      ensures b.storage == old(b.storage)["selectedMenuKey" := key]
    {
      selectedKey := key;
      b.SetItem("selectedMenuKey", key);
    }

    /** `checkUserRole` on a `storage` event: afterwards `userRole` is the stored
        role, and `updated` says whether the state cell was written, which
        happens exactly when the two differed. The selected key is not revisited. */
    method CheckUserRole(b: Browser) returns (updated: bool)
      modifies this`userRole
      ensures userRole == GetItem(b.storage, "userRole")
      ensures updated <==> old(userRole) != GetItem(b.storage, "userRole")
    {
      var currentRole := GetItem(b.storage, "userRole");
      updated := currentRole != userRole;
      if updated {
        userRole := currentRole;
      }
    }
  }
}
