// `format_task_input`: the instruction string handed to the agent for one task.
module TaskFormat {

  import opened Text
  import opened Tasks

  /** The text before the website in the instruction template. */
  const InstructionLead: string := "在网站 "

  /** The text between the website and the task text. */
  const InstructionMid: string := " 上执行以下任务: "

  /** The fixed execution directives that close the instruction. */
  const InstructionDirectives: string := "\n\n执行要求:\n1. 逐步完成任务的每个步骤\n2. 在关键操作点使用 browser_screenshot 工具记录进度\n3. 确保真正完成任务目标，而不仅仅是截图\n4. 每次截图后继续执行下一步操作\n\n注意：GUI Agent会自动截图用于决策，你需要额外调用browser_screenshot工具来保存重要进度截图到本地。"

  /**
   * Without a website the task text is sent unchanged; with one, the task
   * text is wrapped in the template, which names the website first. The
   * result always contains the task text, and the website when there is one.
   */
  function FormatTaskInput(t: Task): (r: string)
    ensures t.website == "" ==> r == t.confirmedTask
    ensures Contains(r, t.confirmedTask)
    ensures t.website != "" ==>
      && StartsWith(r, InstructionLead)
      && OccursAt(r, t.website, |InstructionLead|)
      && EndsWith(r, InstructionDirectives)
      && |r| == |InstructionLead| + |t.website| + |InstructionMid| + |t.confirmedTask| + |InstructionDirectives|
  {
    if t.website != "" then
      Template(InstructionLead, t.website, InstructionMid, t.confirmedTask, InstructionDirectives);
      InstructionLead + t.website + InstructionMid + t.confirmedTask + InstructionDirectives
    else
      assert OccursAt(t.confirmedTask, t.confirmedTask, 0);
      t.confirmedTask
  }

  /** Where the parts of a filled-in template sit. */
  lemma Template(lead: string, website: string, mid: string, text: string, tail: string)
    ensures var r := lead + website + mid + text + tail;
      && StartsWith(r, lead)
      && OccursAt(r, website, |lead|)
      && OccursAt(r, text, |lead| + |website| + |mid|)
      && EndsWith(r, tail)
      && |r| == |lead| + |website| + |mid| + |text| + |tail|
  {
  }

  /**
   * Reads the task text back out of an instruction, given the website it was
   * formatted for.
   */
  function TaskTextOf(website: string, instruction: string): string {
    if website == "" then instruction
    else
      var from := |InstructionLead| + |website| + |InstructionMid|;
      if from + |InstructionDirectives| <= |instruction|
      then instruction[from..|instruction| - |InstructionDirectives|]
      else instruction
  }

  /**
   * The instruction loses nothing of the task text: knowing the website, the
   * text is recovered exactly. So two tasks for the same website get the
   * same instruction only when their texts are equal.
   */
  lemma TaskTextRoundTrip(t: Task)
    ensures TaskTextOf(t.website, FormatTaskInput(t)) == t.confirmedTask
  {
  }

  lemma SameWebsiteSameInstruction(t1: Task, t2: Task)
    requires t1.website == t2.website
    requires FormatTaskInput(t1) == FormatTaskInput(t2)
    ensures t1.confirmedTask == t2.confirmedTask
  {
    TaskTextRoundTrip(t1);
    TaskTextRoundTrip(t2);
  }
}
