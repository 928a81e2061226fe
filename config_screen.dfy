/**
 * The configuration screen (src/features/dataHealth/screens/Config.tsx): the
 * per-entity field mappings with their category lists, and the logical-rule
 * registry. Each updater is a pure function over the held lists; the
 * `ConfigEditor` class holds the lists and applies the updaters in place.
 * Random ids and the answers typed into `prompt` dialogs are inputs.
 */
module ConfigScreen {
  import opened Seqs
  import opened Text
  import opened Types

  datatype DataType = Categorical | NonCategorical

  datatype FieldConfig = FieldConfig(
    id: string,
    naviDefinition: string,
    erpName: string,
    dataType: DataType,
    categories: seq<string>,
    referencedEntity: Option<ObjectType>)

  datatype EntityConfig = EntityConfig(entity: ObjectType, fields: seq<FieldConfig>)

  /** The parts of a field the editor's inputs patch; `None` leaves that part as it is. */
  datatype FieldPatch = FieldPatch(
    naviDefinition: Option<string>,
    erpName: Option<string>,
    dataType: Option<DataType>,
    categories: Option<seq<string>>)

  /** `{ ...f, ...patch }`. */
  function ApplyPatch(f: FieldConfig, p: FieldPatch): FieldConfig {
    f.(naviDefinition := p.naviDefinition.GetOr(f.naviDefinition),
       erpName := p.erpName.GetOr(f.erpName),
       dataType := p.dataType.GetOr(f.dataType),
       categories := p.categories.GetOr(f.categories))
  }

  /**
   * Only the addressed field changes: other entities and other fields are kept
   * as they were, in place, and the addressed field becomes `g` of itself.
   */
  ghost predicate ChangesOnlyField(entities: seq<EntityConfig>, r: seq<EntityConfig>, entity: ObjectType,
                                   fieldId: string, g: FieldConfig -> FieldConfig) {
    && |r| == |entities|
    && forall k :: 0 <= k < |r| ==>
      && r[k].entity == entities[k].entity
      && |r[k].fields| == |entities[k].fields|
      && (entities[k].entity != entity ==> r[k] == entities[k])
      && forall j :: 0 <= j < |r[k].fields| ==>
        r[k].fields[j] == if entities[k].entity == entity && entities[k].fields[j].id == fieldId
                          then g(entities[k].fields[j]) else entities[k].fields[j]
  }

  /**
   * The shape shared by `updateField`, `addCategory` and `removeCategory`:
   * apply `g` to the fields with id `fieldId` inside the entities named `entity`.
   */
  function MapField(entities: seq<EntityConfig>, entity: ObjectType, fieldId: string,
                    g: FieldConfig -> FieldConfig): (r: seq<EntityConfig>)
    ensures ChangesOnlyField(entities, r, entity, fieldId, g)
  {
    seq(|entities|, k requires 0 <= k < |entities| =>
      if entities[k].entity != entity then entities[k]
      else entities[k].(fields := seq(|entities[k].fields|, j requires 0 <= j < |entities[k].fields| =>
        if entities[k].fields[j].id == fieldId then g(entities[k].fields[j]) else entities[k].fields[j])))
  }

  /**
   * `updateField(entity, fieldId, patch)`: only the addressed field is patched;
   * no field changes its id or its referenced entity.
   */
  function UpdateField(entities: seq<EntityConfig>, entity: ObjectType, fieldId: string, p: FieldPatch): (r: seq<EntityConfig>)
    ensures ChangesOnlyField(entities, r, entity, fieldId, (f: FieldConfig) => ApplyPatch(f, p))
    ensures forall k, j :: 0 <= k < |r| && 0 <= j < |r[k].fields| ==>
      r[k].fields[j].id == entities[k].fields[j].id &&
      r[k].fields[j].referencedEntity == entities[k].fields[j].referencedEntity
  {
    MapField(entities, entity, fieldId, (f: FieldConfig) => ApplyPatch(f, p))
  }

  /**
   * The data-type selector's patch, built from the field as currently shown:
   * applied to that field it sets the data type, keeps the categories when
   * switching to categorical, empties them otherwise, and changes nothing else.
   */
  function DataTypePatch(f: FieldConfig, t: DataType): (r: FieldPatch)
    ensures ApplyPatch(f, r) == f.(dataType := t, categories := if t == Categorical then f.categories else [])
  {
    FieldPatch(None, None, Some(t), Some(if t == Categorical then f.categories else []))
  }

  /** A freshly added field: empty names, non-categorical, no categories, no referenced entity. */
  function NewField(id: string): FieldConfig {
    FieldConfig(id, "", "", NonCategorical, [], None)
  }

  /** A new field's id: the entity's name, a dash and `suffix`, which stands for the random base-36 characters. */
  function NewFieldId(entity: ObjectType, suffix: string): string {
    ObjectTypeName(entity) + "-" + suffix
  }

  /** `addField(entity)`: the new field goes first in the named entity's list. */
  function AddField(entities: seq<EntityConfig>, entity: ObjectType, suffix: string): (r: seq<EntityConfig>)
    ensures |r| == |entities|
  {
    seq(|entities|, k requires 0 <= k < |entities| =>
      if entities[k].entity == entity then entities[k].(fields := [NewField(NewFieldId(entity, suffix))] + entities[k].fields)
      else entities[k])
  }

  /**
   * Adding a field grows the named entity's list by exactly one field at the
   * front (empty names, non-categorical, no categories) and changes no other entity.
   */
  lemma AddFieldSpec(entities: seq<EntityConfig>, entity: ObjectType, suffix: string)
    ensures forall k :: 0 <= k < |entities| ==>
      var e := AddField(entities, entity, suffix)[k];
      && e.entity == entities[k].entity
      && (entities[k].entity != entity ==> e == entities[k])
      && (entities[k].entity == entity ==>
            && |e.fields| == |entities[k].fields| + 1
            && e.fields[1..] == entities[k].fields
            && e.fields[0].id == ObjectTypeName(entity) + "-" + suffix
            && e.fields[0].naviDefinition == [] && e.fields[0].erpName == []
            && e.fields[0].dataType == NonCategorical && e.fields[0].categories == [])
  {
  }

  /**
   * `addCategory`'s list update: append the trimmed value, then keep the first
   * occurrence of each. The result has no duplicates, holds exactly the old
   * categories and the trimmed value, and lists them in the order of their
   * first occurrence in the old list followed by the trimmed value.
   */
  function AddToCategories(categories: seq<string>, value: string): (r: seq<string>)
    ensures NoDups(r)
    ensures Trim(value) in r
    ensures forall k :: 0 <= k < |categories| ==> categories[k] in r
    ensures forall k :: 0 <= k < |r| ==> r[k] in categories || r[k] == Trim(value)
    ensures InFirstOccurrenceOrder(r, categories + [Trim(value)])
  {
    var s := categories + [Trim(value)];
    assert s[|categories|] == Trim(value);
    assert forall k :: 0 <= k < |categories| ==> s[k] == categories[k];
    Dedup(s)
  }

  /**
   * `addCategory(entity, fieldId, value)`: an empty or white-space-only value
   * changes nothing; any other value changes only the addressed field of the
   * addressed entity.
   */
  function AddCategory(entities: seq<EntityConfig>, entity: ObjectType, fieldId: string, value: string): (r: seq<EntityConfig>)
    ensures IsBlank(value) ==> r == entities
    ensures !IsBlank(value) ==>
      ChangesOnlyField(entities, r, entity, fieldId, (f: FieldConfig) => f.(categories := AddToCategories(f.categories, value)))
  {
    if Trim(value) == [] then entities
    else MapField(entities, entity, fieldId, (f: FieldConfig) => f.(categories := AddToCategories(f.categories, value)))
  }

  /**
   * The new list is the de-duplicated old list with the trimmed value appended
   * when it is new; a duplicate-free list is kept as it was, with the trimmed
   * value appended when it is new.
   */
  lemma AddToCategoriesSpec(categories: seq<string>, value: string)
    ensures AddToCategories(categories, value) ==
      Dedup(categories) + (if Trim(value) in categories then [] else [Trim(value)])
    ensures NoDups(categories) ==>
      AddToCategories(categories, value) == categories + (if Trim(value) in categories then [] else [Trim(value)])
  {
    DedupSnoc(categories, Trim(value));
    if NoDups(categories) {
      DedupOfDistinct(categories);
    }
  }

  /**
   * `removeCategory`'s list update: drop every entry equal to the exact
   * (untrimmed) value, keeping all other entries, repeats included, in order.
   */
  function RemoveFromCategories(categories: seq<string>, value: string): (r: seq<string>)
    ensures |r| == |categories| - multiset(categories)[value]
    ensures value !in r
    ensures forall k :: 0 <= k < |categories| && categories[k] != value ==> categories[k] in r
    ensures SubsequenceOf(r, categories)
  {
    FilterIsSubsequence(categories, c => c != value);
    CountIfOthers(categories, c => c != value, value);
    Filter(categories, c => c != value)
  }

  /** `removeCategory(entity, fieldId, value)`: changes only the addressed field of the addressed entity. */
  function RemoveCategory(entities: seq<EntityConfig>, entity: ObjectType, fieldId: string, value: string): (r: seq<EntityConfig>)
    ensures ChangesOnlyField(entities, r, entity, fieldId,
                             (f: FieldConfig) => f.(categories := RemoveFromCategories(f.categories, value)))
  {
    MapField(entities, entity, fieldId, (f: FieldConfig) => f.(categories := RemoveFromCategories(f.categories, value)))
  }

  /** Removal is exact: a value that is not literally present removes nothing, even if it trims to one that is. */
  lemma RemoveAbsentCategory(categories: seq<string>, value: string)
    requires value !in categories
    ensures RemoveFromCategories(categories, value) == categories
  {
    FilterKeepsAll(categories, c => c != value);
  }

  /** `toggleRuleEnabled(id)`. */
  function ToggleRule(rules: seq<LogicalRule>, id: string): (r: seq<LogicalRule>)
    ensures |r| == |rules|
  {
    seq(|rules|, k requires 0 <= k < |rules| =>
      if rules[k].id == id then rules[k].(enabled := !rules[k].enabled) else rules[k])
  }

  /** Only the `enabled` flag of the rules with that id flips; toggling twice restores the list. */
  lemma ToggleRuleSpec(rules: seq<LogicalRule>, id: string)
    ensures forall k :: 0 <= k < |rules| ==>
      ToggleRule(rules, id)[k].enabled == (rules[k].enabled != (rules[k].id == id)) &&
      ToggleRule(rules, id)[k] == rules[k].(enabled := ToggleRule(rules, id)[k].enabled)
    ensures ToggleRule(ToggleRule(rules, id), id) == rules
  {
  }

  /** The predicate handed to `logicalRules.find`. */
  function WithId(id: string): LogicalRule -> bool {
    (x: LogicalRule) => x.id == id
  }

  /** `logicalRules.find(x => x.id === id)`: the first rule with that id, if any. */
  function FindRule(rules: seq<LogicalRule>, id: string): (r: Option<LogicalRule>)
    ensures r.None? <==> forall k :: 0 <= k < |rules| ==> rules[k].id != id
    ensures r.Some? ==> exists k :: 0 <= k < |rules| && rules[k] == r.value && r.value.id == id &&
                                    forall j :: 0 <= j < k ==> rules[j].id != id
  {
    Find(rules, WithId(id))
  }

  /**
   * `editRule(id)`: unknown ids do nothing; otherwise the two prompt answers
   * (`None` when cancelled, which keeps the old text) become the name and
   * description of every rule with that id.
   */
  function EditRule(rules: seq<LogicalRule>, id: string, nameAnswer: Option<string>, descAnswer: Option<string>): (r: seq<LogicalRule>)
    ensures |r| == |rules|
  {
    match FindRule(rules, id)
    case None => rules
    case Some(found) =>
      var name := nameAnswer.GetOr(found.name);
      var desc := descAnswer.GetOr(found.description);
      seq(|rules|, k requires 0 <= k < |rules| =>
        if rules[k].id == id then rules[k].(name := name, description := desc) else rules[k])
  }

  /** Editing leaves an unknown id's list alone and otherwise touches only names and descriptions of that id. */
  lemma EditRuleSpec(rules: seq<LogicalRule>, id: string, nameAnswer: Option<string>, descAnswer: Option<string>)
    ensures (forall k :: 0 <= k < |rules| ==> rules[k].id != id) ==> EditRule(rules, id, nameAnswer, descAnswer) == rules
    ensures forall k :: 0 <= k < |rules| ==>
      var e := EditRule(rules, id, nameAnswer, descAnswer)[k];
      && e == rules[k].(name := e.name, description := e.description)
      && (rules[k].id != id ==> e == rules[k])
      && (rules[k].id == id && nameAnswer.Some? ==> e.name == nameAnswer.value)
      && (rules[k].id == id && descAnswer.Some? ==> e.description == descAnswer.value)
      && (rules[k].id == id ==>
            && FindRule(rules, id).Some?
            && e.name == nameAnswer.GetOr(FindRule(rules, id).value.name)
            && e.description == descAnswer.GetOr(FindRule(rules, id).value.description))
  {
  }

  /**
   * A cancelled prompt keeps the text of the FIRST rule with that id, and that
   * text goes to every rule with the id.
   */
  lemma EditRuleUsesFirstMatch(rules: seq<LogicalRule>, id: string, first: nat,
                               nameAnswer: Option<string>, descAnswer: Option<string>)
    requires first < |rules| && rules[first].id == id
    requires forall j :: 0 <= j < first ==> rules[j].id != id
    ensures forall k :: 0 <= k < |rules| && rules[k].id == id ==>
      && EditRule(rules, id, nameAnswer, descAnswer)[k].name == nameAnswer.GetOr(rules[first].name)
      && EditRule(rules, id, nameAnswer, descAnswer)[k].description == descAnswer.GetOr(rules[first].description)
  {
    FindFirst(rules, WithId(id), first);
  }

  const NewRuleDescription: string := "New custom logical rule (edit me)."

  function Digit(d: nat): char
    requires d < 10
  {
    ('0' as int + d) as char
  }

  /**
   * A new rule's id: `LR-` and the three decimal digits of 100 + `roll`,
   * where `roll` stands for the random draw.
   */
  function NewRuleId(roll: nat): (r: string)
    requires roll < 900
    ensures |r| == 6 && r[..3] == "LR-"
    ensures '1' <= r[3] <= '9'
    ensures forall k :: 3 <= k < 6 ==> '0' <= r[k] <= '9'
    ensures (r[3] as int - '0' as int) * 100 + (r[4] as int - '0' as int) * 10 + (r[5] as int - '0' as int) == 100 + roll
  {
    var n := 100 + roll;
    "LR-" + [Digit(n / 100), Digit(n / 10 % 10), Digit(n % 10)]
  }

  /** `createRule`: a missing or empty name does nothing; otherwise the new rule goes first. */
  function CreateRule(rules: seq<LogicalRule>, nameAnswer: Option<string>, roll: nat): (r: seq<LogicalRule>)
    requires roll < 900
    ensures nameAnswer.None? || nameAnswer.value == [] ==> r == rules
    ensures nameAnswer.Some? && nameAnswer.value != [] ==>
      && |r| == |rules| + 1
      && r[1..] == rules
      && r[0] == LogicalRule(NewRuleId(roll), nameAnswer.value, NewRuleDescription, Major, true, 0, EventStateMismatch)
  {
    if nameAnswer.None? || nameAnswer.value == [] then rules
    else [LogicalRule(NewRuleId(roll), nameAnswer.value, NewRuleDescription, Major, true, 0, EventStateMismatch)] + rules
  }

  /** The editor state: the entity mappings and the logical-rule list. */
  class ConfigEditor {
    var entities: seq<EntityConfig>
    var rules: seq<LogicalRule>

    constructor (initialEntities: seq<EntityConfig>, initialRules: seq<LogicalRule>)
      ensures entities == initialEntities && rules == initialRules
    {
      entities := initialEntities;
      rules := initialRules;
    }

    method UpdateFieldOf(entity: ObjectType, fieldId: string, p: FieldPatch)
      modifies this
      ensures entities == UpdateField(old(entities), entity, fieldId, p) && rules == old(rules)
    {
      entities := UpdateField(entities, entity, fieldId, p);
    }

    /** The data-type selector of the field `f` shown for `entity`. */
    method ChangeDataType(entity: ObjectType, f: FieldConfig, t: DataType)
      modifies this
      ensures entities == UpdateField(old(entities), entity, f.id, DataTypePatch(f, t)) && rules == old(rules)
    {
      UpdateFieldOf(entity, f.id, DataTypePatch(f, t));
    }

    method AddFieldTo(entity: ObjectType, suffix: string)
      modifies this
      ensures entities == AddField(old(entities), entity, suffix) && rules == old(rules)
    {
      entities := AddField(entities, entity, suffix);
    }

    method AddCategoryTo(entity: ObjectType, fieldId: string, value: string)
      modifies this
      ensures entities == AddCategory(old(entities), entity, fieldId, value) && rules == old(rules)
    {
      if Trim(value) == [] {
        return;
      }
      entities := AddCategory(entities, entity, fieldId, value);
    }

    method RemoveCategoryFrom(entity: ObjectType, fieldId: string, value: string)
      modifies this
      ensures entities == RemoveCategory(old(entities), entity, fieldId, value) && rules == old(rules)
    {
      entities := RemoveCategory(entities, entity, fieldId, value);
    }

    method ToggleRuleEnabled(id: string)
      modifies this
      ensures rules == ToggleRule(old(rules), id) && entities == old(entities)
    {
      rules := ToggleRule(rules, id);
    }

    method EditRuleOf(id: string, nameAnswer: Option<string>, descAnswer: Option<string>)
      modifies this
      ensures rules == EditRule(old(rules), id, nameAnswer, descAnswer) && entities == old(entities)
    {
      rules := EditRule(rules, id, nameAnswer, descAnswer);
    }

    method CreateRuleNamed(nameAnswer: Option<string>, roll: nat)
      requires roll < 900
      modifies this
      ensures rules == CreateRule(old(rules), nameAnswer, roll) && entities == old(entities)
    {
      rules := CreateRule(rules, nameAnswer, roll);
    }
  }
}
