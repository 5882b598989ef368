/**
 * The interface-merging solution of the TypeScript refresher: the boolean case of the merged
 * `Formatter`, the overloaded `DataStore.get` with an optional default, and the merged
 * `GameCharacter` object whose methods change its fields.
 */
module InterfaceMerging {
  import opened Wrappers
  import JsObject

  /** The boolean overload of `formatter.format`. */
  function FormatBoolean(value: bool): (r: string)
    ensures |r| > 9 && r[..9] == "Boolean: "
    ensures value <==> r[9..] == "Yes"
    ensures !value <==> r[9..] == "No"
  {
    "Boolean: " + (if value then "Yes" else "No")
  }

  /** The private `data` record of `DataStoreImpl`. */
  const StoreData: JsObject.Entries<string> := [("username", "john_doe"), ("theme", "dark")]

  /** `get(key, defaultValue?)`: the stored value, or the default (itself possibly undefined). */
  function StoreGet(data: JsObject.Entries<string>, key: string, defaultValue: Option<string>): (r: Option<string>)
    ensures JsObject.HasKey(data, key) ==> r == JsObject.Get(data, key) && r.Some?
    ensures !JsObject.HasKey(data, key) ==> r == defaultValue
  {
    var value := JsObject.Get(data, key);
    JsObject.GetNone(data, key);
    if value.Some? then value else defaultValue
  }

  /** A default is only used for a missing key, so it never hides a stored value. */
  lemma DefaultOnlyWhenMissing(data: JsObject.Entries<string>, key: string, d1: Option<string>, d2: Option<string>)
    requires JsObject.HasKey(data, key)
    ensures StoreGet(data, key, d1) == StoreGet(data, key, d2)
  {
  }

  /** The demo calls: "username" is stored; "email" is missing, with and without a default. */
  lemma StoreDemo(username: string, email: string)
    requires username == "username" && email == "email"
    ensures StoreGet(StoreData, username, None) == Some("john_doe")
    ensures StoreGet(StoreData, email, None) == None
    ensures StoreGet(StoreData, email, Some("default@example.com")) == Some("default@example.com")
  {
    assert JsObject.Keys(StoreData) == ["username", "theme"];
  }

  /** `gameCharacter`: one object with the fields of the four merged declarations. */
  class GameCharacter {
    var name: string
    var level: int
    var health: int
    var mana: int
    var strength: int
    var inventory: seq<string>
    var gold: int

    /** The literal of the example: Aragorn at level 15. */
    constructor()
      ensures name == "Aragorn" && level == 15 && health == 100 && mana == 50 && strength == 85
      ensures inventory == ["Sword", "Shield", "Health Potion"] && gold == 250
    {
      name := "Aragorn";
      level := 15;
      health := 100;
      mana := 50;
      strength := 85;
      inventory := ["Sword", "Shield", "Health Potion"];
      gold := 250;
    }

    /** `attack`: costs exactly 5 mana, with no lower bound; the target only appears in the log line. */
    method Attack(target: string)
      modifies this
      ensures mana == old(mana) - 5
      ensures name == old(name) && level == old(level) && health == old(health) && strength == old(strength)
      ensures inventory == old(inventory) && gold == old(gold)
    {
      mana := mana - 5;
    }

    /** `heal`: health grows by the amount but is capped at 100. */
    method Heal(amount: int)
      modifies this
      ensures health == if old(health) + amount < 100 then old(health) + amount else 100
      ensures health <= 100
      ensures name == old(name) && level == old(level) && mana == old(mana) && strength == old(strength)
      ensures inventory == old(inventory) && gold == old(gold)
    {
      health := Min(health + amount, 100);
    }

    /** `addItem`: the item goes at the end of the inventory. */
    method AddItem(item: string)
      modifies this
      ensures inventory == old(inventory) + [item]
      ensures name == old(name) && level == old(level) && health == old(health) && mana == old(mana)
      ensures strength == old(strength) && gold == old(gold)
    {
      inventory := inventory + [item];
    }
  }

  /** `Math.min` on integers. */
  function Min(a: int, b: int): (r: int)
    ensures r <= a && r <= b && (r == a || r == b)
  {
    if a < b then a else b
  }

  /** The three actions of the example: attack an orc, heal 20 (capped at 100), pick up a ring. */
  method Actions() returns (c: GameCharacter)
    ensures c.mana == 45 && c.health == 100
    ensures c.inventory == ["Sword", "Shield", "Health Potion", "Magic Ring"]
  {
    c := new GameCharacter();
    c.Attack("Orc");
    c.Heal(20);
    c.AddItem("Magic Ring");
  }
}
