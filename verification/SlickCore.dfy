/** The things a grid shows: data items, and the `Slick.Group` and `Slick.GroupTotals` rows between them. */
module SlickCore {
  import opened Wrappers

  /** A data item, named by its `id` property; `content` stands for all its other properties. */
  datatype Item = Item(id: Option<string>, content: int)

  /** The `groups` of a group: `null`, or a list. */
  datatype SubGroups = Absent | Listed(list: seq<Group>)

  /** `Slick.Group`; `totals` says whether totals were attached. */
  datatype Group = Group(value: string, level: nat, groupingKey: string, count: nat, rows: seq<Item>,
                         groups: SubGroups, collapsed: bool, title: string, totals: bool)
  {
    /** `Group.prototype.equals` */
    predicate EqualTo(g: Group) {
      value == g.value && count == g.count && collapsed == g.collapsed && title == g.title
    }
  }

  datatype Row = Data(item: Item) | Header(group: Group) | Totals(group: Group)

  /** `gi.getter`, `gi.formatter`, `gi.comparer` and the options of one grouping level. */
  datatype GroupingInfo = GroupingInfo(
    getter: Item -> string, formatter: Option<Group -> string>, comparer: (Group, Group) -> int,
    predefinedValues: seq<string>, aggregators: nat, aggregateEmpty: bool, aggregateCollapsed: bool,
    displayTotalsRow: bool, collapsed: bool)
}
