/** Plans as data: the values a plan may carry, and its steps. */
module PlanSchema {

  /** A plan value; a float is kept as its printed form. */
  datatype Value =
    | Null
    | Bool(flag: bool)
    | Int(number: int)
    | Float(repr: string)
    | Str(text: string)
    | List(items: seq<Value>)
    | Tuple(items: seq<Value>)
    | Dict(entries: seq<Entry>)

  /** One key of a dictionary, in insertion order. */
  datatype Entry = Entry(key: string, value: Value)

  datatype ToolStep = ToolStep(stepId: int, tool: string, capability: string, args: seq<Entry>)

  datatype Plan = Plan(planId: string, steps: seq<ToolStep>, metadata: seq<Entry>)
}
