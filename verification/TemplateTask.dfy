/** `template_task_run` on the context it is given: the decision to fork, and the mode left behind. */
module TemplateTask {
  import opened Wrappers
  import opened Activities
  import opened ForkJoin

  class TemplateContext {
    var taskMode: Mode

    constructor (mode: Mode)
      ensures taskMode == mode
    {
      taskMode := mode;
    }

    /** Whether the function becomes a task of the pool; otherwise it is called at once. */
    method TemplateTaskRun(pool: bool, fork: Option<string>, listed: bool) returns (task: bool)
      modifies this
      ensures (taskMode, task) == Decide(pool, old(taskMode), Task(fork, listed))
      ensures !pool || old(taskMode) == Single ==> !task && taskMode == old(taskMode)
      ensures task ==> taskMode == Default
      ensures taskMode == Deny && old(taskMode) != Deny ==> fork == Some("deny")
      ensures old(taskMode) == Deny && task ==> fork == Some("yes")
    {
      if !pool {
        return false;
      }
      if taskMode == Single {
        return false;
      }
      if taskMode == Deny {
        if fork != Some("yes") {
          return false;
        }
        taskMode := Default;
      } else {
        if fork != None {
          if fork == Some("no") {
            return false;
          }
          if fork == Some("deny") {
            taskMode := Deny;
            return false;
          }
        } else {
          if !listed {
            return false;
          }
        }
      }
      return true;
    }
  }
}
