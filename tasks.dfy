/** The task names of the benchmark and their `TASK_TITLES`, which both the
    bench tool and the report script use to name task directories. */
module Tasks {
  import opened Wrappers

  /** `TASKS`, in their listed order. */
  const TaskNames: seq<string> := ["danetqa", "muserc", "parus", "rcb", "rucos", "russe", "rwsd", "terra", "lidirus"]

  /** `TASK_TITLES[task]`: an unknown task raises `KeyError`. */
  function TaskTitle(task: string): (r: Result<string>)
    ensures r.Ok? <==> task in TaskNames
    ensures r.Err? ==> r.error == KeyError
    ensures r.Ok? ==> r.value != [] && '/' !in r.value
  {
    if task == "danetqa" then Ok("DaNetQA")
    else if task == "lidirus" then Ok("LiDiRus")
    else if task == "muserc" then Ok("MuSeRC")
    else if task == "parus" then Ok("PARus")
    else if task == "rcb" then Ok("RCB")
    else if task == "rucos" then Ok("RuCoS")
    else if task == "russe" then Ok("RUSSE")
    else if task == "rwsd" then Ok("RWSD")
    else if task == "terra" then Ok("TERRa")
    else Err(KeyError)
  }

  /** Different tasks have different titles, so a title names its task. */
  lemma TaskTitleInjective(a: string, b: string)
    requires TaskTitle(a).Ok? && TaskTitle(a) == TaskTitle(b)
    ensures a == b
  {
  }
}
