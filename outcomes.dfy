/** Optional values, the plugin's crash sites, and results that either carry a value or the crash
    that prevented it. The Python module has no error values of its own: each Fault names a place
    where it raises (an assertion, an AttributeError or a TypeError) on input it does not handle. */
module Outcomes {

  datatype Option<+T> = None | Some(value: T)

  /** The places where flake8_unused_arguments.py raises instead of returning. */
  datatype Fault =
    | UnknownDecoratorShape     // `assert False, decorator`: a decorator that is no Name, Attribute or Call
    | CalleeHasNoAttr           // `decorator.func.attr` on a called decorator whose callee is no Attribute
    | LambdaHasNoDecoratorList  // `function.decorator_list` on a Lambda (reached under ignore_abstract)
    | LambdaBodyHasNoLength     // `len(function.body)` on a Lambda, whose body is one expression (ignore_stubs)
    | MissingKwarg              // `function.args.kwarg.arg` when there is no `**kwarg` (ignore_variadic_names)

  datatype Result<+T> = Ok(value: T) | Err(fault: Fault)

  /** What a Python generator produced: the items it yielded, in order, and the fault it raised
      afterwards, if any. */
  datatype Yielded<+T> = Yielded(items: seq<T>, stop: Option<Fault>)
}
